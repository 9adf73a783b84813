/** Character-level helpers: fixed-width digit fields, Python's `str.split()`,
    `str.replace`, slicing `s[:n]`, and the strict forms of `int()` and
    `float()` the model accepts. */
module Text {
  import opened Results

  predicate IsDigit(c: char) { '0' <= c <= '9' }

  predicate AllDigits(s: string) { forall i :: 0 <= i < |s| ==> IsDigit(s[i]) }

  function DigitValue(c: char): (n: nat)
    requires IsDigit(c)
    ensures n < 10
  {
    c as int - '0' as int
  }

  function DigitChar(n: nat): (c: char)
    requires n < 10
    ensures IsDigit(c) && DigitValue(c) == n
  {
    ('0' as int + n) as char
  }

  function Pow10(k: nat): (p: nat)
    ensures p >= 1
  {
    if k == 0 then 1 else 10 * Pow10(k - 1)
  }

  /** The decimal value of a string of digits, most significant first. */
  function DigitsValue(s: string): (n: nat)
    requires AllDigits(s)
    ensures n < Pow10(|s|)
  {
    if s == [] then 0 else DigitsValue(s[..|s| - 1]) * 10 + DigitValue(s[|s| - 1])
  }

  /** `n` written with exactly `width` digits, zero-padded on the left
      (the last `width` digits when `n` is wider). */
  function PadDigits(n: nat, width: nat): (s: string)
    ensures |s| == width && AllDigits(s)
  {
    if width == 0 then [] else PadDigits(n / 10, width - 1) + [DigitChar(n % 10)]
  }

  lemma {:induction false} PadDigitsValue(n: nat, width: nat)
    requires n < Pow10(width)
    ensures DigitsValue(PadDigits(n, width)) == n
  {
    if width > 0 {
      var s, init := PadDigits(n, width), PadDigits(n / 10, width - 1);
      var q, r := n / 10, n % 10;
      DivTen(n, width);
      PadDigitsValue(q, width - 1);
      assert s[..|s| - 1] == init && s[|s| - 1] == DigitChar(r);
      assert DigitsValue(s) == q * 10 + r;
    }
  }

  lemma DivTen(n: nat, width: nat)
    requires width > 0 && n < Pow10(width)
    ensures n / 10 < Pow10(width - 1) && n / 10 * 10 + n % 10 == n
  {
  }

  lemma {:induction false} DigitsValuePad(s: string)
    requires AllDigits(s)
    ensures PadDigits(DigitsValue(s), |s|) == s
  {
    if s != [] {
      var init, last := s[..|s| - 1], s[|s| - 1];
      var n, q, d := DigitsValue(s), DigitsValue(init), DigitValue(last);
      DigitsValuePad(init);
      assert n == q * 10 + d;
      LastDigit(n, q, d);
      assert PadDigits(n, |s|) == PadDigits(q, |init|) + [DigitChar(d)];
      assert DigitChar(d) == last;
      assert s == init + [last];
    }
  }

  lemma LastDigit(m: int, q: int, d: int)
    requires m == q * 10 + d && 0 <= d < 10
    ensures m / 10 == q && m % 10 == d
  {
  }

  // ---------------------------------------------------------------------
  // str.split() with no separator

  /** The ASCII whitespace characters `str.split()` separates on. */
  predicate IsSpace(c: char) {
    c == ' ' || c == '\t' || c == '\n' || c == '\r' || c == '\U{000B}' || c == '\U{000C}'
  }

  predicate NoSpace(s: string) { forall i :: 0 <= i < |s| ==> !IsSpace(s[i]) }

  /** Length of the leading run of non-space characters. */
  function TokenEnd(s: string): (n: nat)
    ensures n <= |s| && NoSpace(s[..n])
    ensures n < |s| ==> IsSpace(s[n])
  {
    if s == [] || IsSpace(s[0]) then 0 else 1 + TokenEnd(s[1..])
  }

  /** Python's `s.split()`: the maximal runs of non-space characters. */
  function Words(s: string): (r: seq<string>)
    ensures forall k :: 0 <= k < |r| ==> r[k] != [] && NoSpace(r[k])
    decreases |s|
  {
    if s == [] then []
    else if IsSpace(s[0]) then Words(s[1..])
    else
      var n := TokenEnd(s);
      [s[..n]] + Words(s[n..])
  }

  lemma {:induction false} TokenEndOf(a: string, rest: string)
    requires NoSpace(a)
    requires rest == [] || IsSpace(rest[0])
    ensures TokenEnd(a + rest) == |a|
  {
    if a != [] {
      assert (a + rest)[1..] == a[1..] + rest;
      TokenEndOf(a[1..], rest);
    } else {
      assert a + rest == rest;
    }
  }

  /** Two space-free tokens joined by one space split back into exactly those two. */
  lemma WordsOfPair(a: string, b: string)
    requires a != [] && NoSpace(a) && b != [] && NoSpace(b)
    ensures Words(a + " " + b) == [a, b]
  {
    var s := a + " " + b;
    assert s == a + (" " + b);
    TokenEndOf(a, " " + b);
    assert s[0] == a[0];
    assert Words(s) == [s[..|a|]] + Words(s[|a|..]);
    assert s[..|a|] == a;
    assert s[|a|..] == " " + b;
    assert (" " + b)[1..] == b;
    assert Words(" " + b) == Words(b);
    WordsOfOne(b);
  }

  lemma WordsOfOne(b: string)
    requires b != [] && NoSpace(b)
    ensures Words(b) == [b]
  {
    TokenEndOf(b, []);
    assert b + [] == b;
    assert Words(b) == [b[..|b|]] + Words(b[|b|..]);
    assert b[..|b|] == b;
    assert b[|b|..] == [];
  }

  /** A space ends the leading token wherever the text goes on. */
  lemma {:induction false} TokenEndAppend(a: string, rest: string)
    requires rest == [] || IsSpace(rest[0])
    ensures TokenEnd(a + rest) == TokenEnd(a)
  {
    if a == [] {
      assert a + rest == rest;
    } else {
      assert (a + rest)[0] == a[0];
      if !IsSpace(a[0]) {
        assert (a + rest)[1..] == a[1..] + rest;
        TokenEndAppend(a[1..], rest);
      }
    }
  }

  /** Splitting at a separator: the words of a text are the words before
      any space character followed by the words after it. With `Words([])
      == []` and `WordsOfOne` this fixes `Words` on every text. */
  lemma {:induction false} WordsSep(a: string, c: char, b: string)
    requires IsSpace(c)
    ensures Words(a + [c] + b) == Words(a) + Words(b)
    decreases |a|
  {
    var s := a + [c] + b;
    if a == [] {
      assert s == [c] + b && s[1..] == b;
    } else if IsSpace(a[0]) {
      assert s[0] == a[0] && s[1..] == a[1..] + [c] + b;
      WordsSep(a[1..], c, b);
    } else {
      var n := TokenEnd(a);
      assert s == a + ([c] + b);
      TokenEndAppend(a, [c] + b);
      assert s[0] == a[0];
      assert s[..n] == a[..n];
      assert s[n..] == a[n..] + [c] + b;
      WordsSep(a[n..], c, b);
    }
  }

  // ---------------------------------------------------------------------
  // str.replace and slicing

  /** `s.replace(from, to)` for single characters: every occurrence is replaced. */
  function ReplaceChar(s: string, from: char, to: char): (r: string)
    ensures |r| == |s|
    ensures forall i :: 0 <= i < |s| ==> r[i] == (if s[i] == from then to else s[i])
  {
    if s == [] then [] else [if s[0] == from then to else s[0]] + ReplaceChar(s[1..], from, to)
  }

  /** Python's `s[:n]` (and pandas `iloc[:n]`) for `n >= 0`: the whole
      sequence when it is shorter. */
  function Prefix<T>(s: seq<T>, n: nat): (r: seq<T>)
    ensures |r| == if |s| < n then |s| else n
    ensures r <= s
  {
    if |s| <= n then s else s[..n]
  }

  // ---------------------------------------------------------------------
  // int() and float()

  function SignOf(s: string): (k: nat)
    ensures k <= |s|
  {
    if s != [] && (s[0] == '-' || s[0] == '+') then 1 else 0
  }

  function ApplySign(s: string, v: real): real {
    if s != [] && s[0] == '-' then -v else v
  }

  /** `int(s)` on an optional sign followed by decimal digits. */
  function ParseInt(s: string): (r: Result<int>)
    ensures r.Ok? <==> |s| > SignOf(s) && AllDigits(s[SignOf(s)..])
  {
    var k := SignOf(s);
    if |s| > k && AllDigits(s[k..]) then
      var v := DigitsValue(s[k..]);
      Ok(if s[0] == '-' then 0 - v else v)
    else Err(ValueError)
  }

  /** `int(s)` on plain digits is their value. */
  lemma ParseDigits(s: string)
    requires s != [] && AllDigits(s)
    ensures ParseInt(s) == Ok(DigitsValue(s))
  {
    assert SignOf(s) == 0;
    assert s[0..] == s;
  }

  /** Reads digits with at most one `.` among them, left to right:
      `digits` holds the digits read so far with the dot dropped, `scale`
      how many of them follow the dot. The value is exact. */
  function ScanDecimal(s: string, seenDot: bool, digits: string, scale: nat): (r: Result<real>)
    requires AllDigits(digits)
    decreases |s|
  {
    if s == [] then (if digits != [] then Ok(DigitsValue(digits) as real / Pow10(scale) as real) else Err(ValueError))
    else if s[0] == '.' && !seenDot then ScanDecimal(s[1..], true, digits, scale)
    else if IsDigit(s[0]) then
      ScanDecimal(s[1..], seenDot, digits + [s[0]], if seenDot then scale + 1 else scale)
    else Err(ValueError)
  }

  /** `float(s)` on an optional sign, digits, and at most one `.`, with at
      least one digit in all. */
  function ParseDecimal(s: string): (r: Result<real>)
  {
    match ScanDecimal(s[SignOf(s)..], false, [], 0)
    case Ok(v) => Ok(ApplySign(s, v))
    case Err(e) => Err(e)
  }

  /** The position of the first `.`, or the length when there is none. */
  function DotIndex(b: string): (i: nat)
    ensures i <= |b|
    ensures forall j :: 0 <= j < i ==> b[j] != '.'
    ensures i < |b| ==> b[i] == '.'
  {
    if b == [] || b[0] == '.' then 0 else 1 + DotIndex(b[1..])
  }

  /** The digits before the first `.`, and those after it. */
  function IntegerPart(b: string): string {
    b[..DotIndex(b)]
  }

  function FractionPart(b: string): string {
    if DotIndex(b) < |b| then b[DotIndex(b) + 1..] else []
  }

  /** Digits with at most one `.` among them, and at least one digit. */
  predicate DecimalBody(b: string) {
    AllDigits(IntegerPart(b)) && AllDigits(FractionPart(b)) && |IntegerPart(b)| + |FractionPart(b)| > 0
  }

  /** What `float` accepts here: an optional sign, then a decimal body. */
  predicate DecimalText(s: string) {
    DecimalBody(s[SignOf(s)..])
  }

  /** The exact value of a decimal body. */
  function DecimalValue(b: string): real
    requires DecimalBody(b)
  {
    DigitsValue(IntegerPart(b)) as real + DigitsValue(FractionPart(b)) as real / Pow10(|FractionPart(b)|) as real
  }

  /** `float(s)` succeeds exactly on an optional sign and a decimal body,
      and then gives the signed value of the body; anything else is a
      `ValueError`. */
  lemma ParseDecimalOf(s: string)
    ensures ParseDecimal(s).Ok? <==> DecimalText(s)
    ensures DecimalText(s) ==> ParseDecimal(s).value == ApplySign(s, DecimalValue(s[SignOf(s)..]))
    ensures ParseDecimal(s).Err? ==> ParseDecimal(s).error == ValueError
  {
    ScanBody(s[SignOf(s)..]);
  }

  /** The scan of a whole text accepts exactly the decimal bodies, with
      their value. */
  lemma ScanBody(b: string)
    ensures ScanDecimal(b, false, [], 0).Ok? <==> DecimalBody(b)
    ensures DecimalBody(b) ==> ScanDecimal(b, false, [], 0).value == DecimalValue(b)
    ensures ScanDecimal(b, false, [], 0).Err? ==> ScanDecimal(b, false, [], 0).error == ValueError
  {
    ScanInteger(b, []);
    if DecimalBody(b) {
      assert [] + IntegerPart(b) + FractionPart(b) == IntegerPart(b) + FractionPart(b);
      BodyValue(b);
    }
  }

  /** The digits of a body read as one number, divided by the weight of
      its fraction, are the value of the body. */
  lemma BodyValue(b: string)
    requires DecimalBody(b)
    ensures AllDigits(IntegerPart(b) + FractionPart(b))
    ensures DigitsValue(IntegerPart(b) + FractionPart(b)) as real / Pow10(|FractionPart(b)|) as real == DecimalValue(b)
  {
    var ip, fp := IntegerPart(b), FractionPart(b);
    DigitsValueAppend(ip, fp);
    SplitValue(DigitsValue(ip + fp), DigitsValue(ip), DigitsValue(fp), Pow10(|fp|));
  }

  /** Digits written after others shift them by a power of ten. */
  lemma {:induction false} DigitsValueAppend(a: string, b: string)
    requires AllDigits(a) && AllDigits(b)
    ensures AllDigits(a + b)
    ensures DigitsValue(a + b) == DigitsValue(a) * Pow10(|b|) + DigitsValue(b)
  {
    if b == [] {
      assert a + b == a;
    } else {
      var init, last := b[..|b| - 1], b[|b| - 1];
      assert (a + b)[..|a + b| - 1] == a + init;
      assert (a + b)[|a + b| - 1] == last;
      DigitsValueAppend(a, init);
      ShiftDigit(DigitsValue(a), Pow10(|init|), DigitsValue(init), DigitValue(last));
    }
  }

  lemma ShiftDigit(a: int, p: int, e: int, g: int)
    ensures (a * p + e) * 10 + g == a * (10 * p) + (e * 10 + g)
  {
  }

  /** Dividing `a * p + b` by `p` gives `a` and the fraction `b / p`. */
  lemma SplitValue(x: int, a: int, b: int, p: int)
    requires p > 0 && x == a * p + b
    ensures x as real / p as real == a as real + b as real / p as real
  {
    assert x as real == a as real * p as real + b as real;
  }

  /** The scan after the dot: the rest must be digits, which are read on. */
  lemma {:induction false} ScanFraction(f: string, digits: string, scale: nat)
    requires AllDigits(digits)
    ensures ScanDecimal(f, true, digits, scale)
         == if AllDigits(f) && |digits| + |f| > 0
            then (DigitsValueAppend(digits, f); Ok(DigitsValue(digits + f) as real / Pow10(scale + |f|) as real))
            else Err(ValueError)
    decreases |f|
  {
    if f == [] {
      assert digits + f == digits;
    } else if IsDigit(f[0]) {
      var t := f[1..];
      assert AllDigits(digits + [f[0]]) by { DigitsValueAppend(digits, [f[0]]); }
      ScanFraction(t, digits + [f[0]], scale + 1);
      assert digits + [f[0]] + t == digits + f;
      if !AllDigits(t) {
        var k :| 0 <= k < |t| && !IsDigit(t[k]);
        assert f[k + 1] == t[k];
      }
    }
  }

  /** A leading digit is the first digit of the integer part. */
  lemma IntegerDigit(b: string, digits: string)
    requires b != [] && IsDigit(b[0])
    ensures IntegerPart(b) == [b[0]] + IntegerPart(b[1..])
    ensures FractionPart(b) == FractionPart(b[1..])
    ensures AllDigits(IntegerPart(b)) <==> AllDigits(IntegerPart(b[1..]))
    ensures digits + [b[0]] + IntegerPart(b[1..]) == digits + IntegerPart(b)
  {
    var ip, it := IntegerPart(b), IntegerPart(b[1..]);
    assert ip == [b[0]] + it;
    if !AllDigits(it) {
      var k :| 0 <= k < |it| && !IsDigit(it[k]);
      assert ip[k + 1] == it[k];
    }
  }

  /** The scan before the dot: integer digits are read on, then the
      fraction. */
  lemma {:induction false} ScanInteger(b: string, digits: string)
    requires AllDigits(digits)
    ensures ScanDecimal(b, false, digits, 0)
         == if AllDigits(IntegerPart(b)) && AllDigits(FractionPart(b))
               && |digits| + |IntegerPart(b)| + |FractionPart(b)| > 0
            then (DigitsValueAppend(digits, IntegerPart(b));
                  DigitsValueAppend(digits + IntegerPart(b), FractionPart(b));
                  Ok(DigitsValue(digits + IntegerPart(b) + FractionPart(b)) as real
                     / Pow10(|FractionPart(b)|) as real))
            else Err(ValueError)
    decreases |b|
  {
    if b == [] {
      assert digits + IntegerPart(b) + FractionPart(b) == digits;
    } else if b[0] == '.' {
      assert IntegerPart(b) == [];
      ScanFraction(b[1..], digits, 0);
      assert digits + IntegerPart(b) + FractionPart(b) == digits + b[1..];
    } else if IsDigit(b[0]) {
      assert AllDigits(digits + [b[0]]) by { DigitsValueAppend(digits, [b[0]]); }
      ScanInteger(b[1..], digits + [b[0]]);
      IntegerDigit(b, digits);
    } else {
      assert IntegerPart(b)[0] == b[0];
    }
  }

  /** An amount as the report file writes it, with a decimal comma. */
  lemma ParseDecimalExample()
    ensures ParseDecimal(ReplaceChar("-160,89", ',', '.')) == Ok(-160.89)
  {
    CommaExample();
    DotExample(ReplaceChar("-160,89", ',', '.'));
  }

  lemma CommaExample()
    ensures ReplaceChar("-160,89", ',', '.') == "-160.89"
  {
    var s, r := "-160,89", ReplaceChar("-160,89", ',', '.');
    assert s[0] == '-' && s[1] == '1' && s[2] == '6' && s[3] == '0' && s[4] == ',' && s[5] == '8' && s[6] == '9';
    assert r[0] == '-' && r[1] == '1' && r[2] == '6' && r[3] == '0' && r[4] == '.' && r[5] == '8' && r[6] == '9';
  }

  lemma DotExample(s: string)
    requires s == "-160.89"
    ensures ParseDecimal(s) == Ok(-160.89)
  {
    assert SignOf(s) == 1;
    var ip, fp := "160", "89";
    assert s[1..] == ip + "." + fp;
    DotBody(s[1..], ip, fp);
    ParseDecimalOf(s);
  }

  lemma DotBody(b: string, ip: string, fp: string)
    requires ip == "160" && fp == "89" && b == ip + "." + fp
    ensures DecimalBody(b) && DecimalValue(b) == 160.89
  {
    DotSplit(ip, fp);
    ThreeDigitsValue(ip);
    TwoDigitsValue(fp);
    assert Pow10(|fp|) == 100;
  }

  lemma TwoDigitsValue(s: string)
    requires |s| == 2 && AllDigits(s)
    ensures DigitsValue(s) == DigitValue(s[0]) * 10 + DigitValue(s[1])
  {
    DigitsSnoc([], s[0]);
    assert [] + [s[0]] == s[..1];
    assert s[..1] + [s[1]] == s;
    DigitsSnoc(s[..1], s[1]);
  }

  lemma ThreeDigitsValue(s: string)
    requires |s| == 3 && AllDigits(s)
    ensures DigitsValue(s) == DigitValue(s[0]) * 100 + DigitValue(s[1]) * 10 + DigitValue(s[2])
  {
    TwoDigitsValue(s[..2]);
    assert s[..2] + [s[2]] == s;
    DigitsSnoc(s[..2], s[2]);
  }

  /** The integer and fraction parts of digits, a dot and digits. */
  lemma DotSplit(ip: string, fp: string)
    requires AllDigits(ip)
    ensures IntegerPart(ip + "." + fp) == ip && FractionPart(ip + "." + fp) == fp
  {
    var b := ip + "." + fp;
    assert b[|ip|] == '.';
    assert forall j :: 0 <= j < |ip| ==> b[j] == ip[j];
    assert DotIndex(b) == |ip|;
    assert b[..|ip|] == ip;
    assert b[|ip| + 1..] == fp;
  }

  lemma DigitsSnoc(s: string, c: char)
    requires AllDigits(s) && IsDigit(c)
    ensures AllDigits(s + [c])
    ensures DigitsValue(s + [c]) == DigitsValue(s) * 10 + DigitValue(c)
  {
    assert (s + [c])[..|s|] == s;
  }

  /** Every comma is replaced, so two commas leave two dots. */
  lemma ParseDecimalTwoCommas()
    ensures ParseDecimal(ReplaceChar("1,5,0", ',', '.')) == Err(ValueError)
  {
    assert ReplaceChar("1,5,0", ',', '.') == "1.5.0";
  }
}
