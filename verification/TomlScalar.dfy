/**
  What scalar tokens of scripts/toml_reader.py mean: TOML v1.0.0, "Integer", "Float" and "Boolean".  Numbers are
  written in any base with any underscores between their digits, and read back.
 */
module TomlScalar {
  import opened Wrappers
  import opened TomlText

  // ---------------------------------------------------------------------------------
  // Digits
  // ---------------------------------------------------------------------------------

  function DigitChar(d: nat, upper: bool): char
    requires d < 16
  {
    if d < 10 then (d + '0' as int) as char
    else if upper then (d - 10 + 'A' as int) as char
    else (d - 10 + 'a' as int) as char
  }

  lemma DigitCharIs(d: nat, upper: bool)
    requires d < 16
    ensures HexDigit(DigitChar(d, upper)) == Some(d)
    ensures d < 10 ==> IsDigit(DigitChar(d, upper)) && (DigitChar(d, upper) == '0' <==> d == 0)
  {
  }

  /** A number in a base, most significant digit first. */
  function Numeral(n: nat, base: nat, upper: bool): string
    requires 2 <= base <= 16
  {
    if n < base then [DigitChar(n, upper)] else Numeral(n / base, base, upper) + [DigitChar(n % base, upper)]
  }

  predicate AllIn(s: string, base: nat) {
    forall i | 0 <= i < |s| :: IsIn(s[i], base)
  }

  lemma {:induction false} NumeralValue(n: nat, base: nat, upper: bool)
    requires 2 <= base <= 16
    ensures var s := Numeral(n, base, upper);
            s != "" && AllIn(s, base) && AllHex(s) && Digits(s, base) == n && (s[0] == '0' <==> n == 0)
  {
    var s := Numeral(n, base, upper);
    if n < base {
      DigitCharIs(n, upper);
      assert s[..0] == "" && Digits("", base) == 0;
    } else {
      Division(n, base);
      NumeralValue(n / base, base, upper);
      OneMoreDigit(Numeral(n / base, base, upper), n % base, base, upper);
    }
  }

  lemma Division(n: nat, base: nat)
    requires 2 <= base <= n
    ensures 0 < n / base < n && n % base < base && n / base * base + n % base == n
  {
  }

  lemma OneMoreDigit(s: string, d: nat, base: nat, upper: bool)
    requires s != "" && AllIn(s, base) && AllHex(s) && d < base <= 16
    ensures var t := s + [DigitChar(d, upper)];
            AllIn(t, base) && AllHex(t) && t[0] == s[0] && Digits(t, base) == Digits(s, base) * base + d
  {
    DigitCharIs(d, upper);
    assert (s + [DigitChar(d, upper)])[..|s|] == s;
  }

  /** Hexadecimal digits of fixed width, as escapes have them. */
  function Hex(n: nat, width: nat, upper: bool): string {
    if width == 0 then "" else Hex(n / 16, width - 1, upper) + [DigitChar(n % 16, upper)]
  }

  function Power16(k: nat): nat {
    if k == 0 then 1 else 16 * Power16(k - 1)
  }

  lemma {:induction false} HexValue(n: nat, width: nat, upper: bool)
    requires n < Power16(width)
    ensures var s := Hex(n, width, upper); |s| == width && AllHex(s) && Digits(s, 16) == n
  {
    if width > 0 {
      var s := Hex(n, width, upper);
      HexValue(n / 16, width - 1, upper);
      DigitCharIs(n % 16, upper);
      assert s[..|s| - 1] == Hex(n / 16, width - 1, upper);
    }
  }

  lemma Powers()
    ensures Power16(4) == 0x1_0000 && Power16(8) == 0x1_0000_0000
  {
    assert Power16(2) == 0x100;
    assert Power16(6) == 0x100_0000;
  }

  // ---------------------------------------------------------------------------------
  // Underscores
  // ---------------------------------------------------------------------------------

  /** The digits with an underscore after each one marked, but never after the last. */
  function Spaced(ds: string, marks: seq<bool>): string {
    if |ds| <= 1 then ds
    else
      var rest := Spaced(ds[1..], if marks == [] then [] else marks[1..]);
      if marks != [] && marks[0] then [ds[0], '_'] + rest else [ds[0]] + rest
  }

  lemma {:induction false} SpacedRun(ds: string, marks: seq<bool>, base: nat)
    requires ds != "" && AllIn(ds, base) && base <= 16
    ensures var s := Spaced(ds, marks); s != "" && s[0] == ds[0] && DigitRun(s, base) && Plain(s) == ds
    ensures forall c | c in Spaced(ds, marks) :: c == '_' || IsIn(c, base)
    decreases |ds|
  {
    if |ds| == 1 {
      assert ds[1..] == "" && Plain(ds) == [ds[0]] + Plain(ds[1..]);
    } else {
      var rest := Spaced(ds[1..], if marks == [] then [] else marks[1..]);
      SpacedRun(ds[1..], if marks == [] then [] else marks[1..], base);
      assert ds == [ds[0]] + ds[1..];
      if marks != [] && marks[0] { MarkedStep(ds[0], rest, base); } else { UnmarkedStep(ds[0], rest, base); }
    }
  }

  lemma MarkedStep(c: char, rest: string, base: nat)
    requires IsIn(c, base) && DigitRun(rest, base)
    ensures DigitRun([c, '_'] + rest, base) && Plain([c, '_'] + rest) == [c] + Plain(rest)
  {
    var s := [c, '_'] + rest;
    assert s[1..] == ['_'] + rest && s[1..][1..] == rest && s[1..][2..] == rest[1..];
    assert Plain(s) == [c] + Plain(s[1..]) && Plain(s[1..]) == Plain(rest);
  }

  lemma UnmarkedStep(c: char, rest: string, base: nat)
    requires IsIn(c, base) && DigitRun(rest, base)
    ensures DigitRun([c] + rest, base) && Plain([c] + rest) == [c] + Plain(rest)
  {
    assert ([c] + rest)[1..] == rest;
    RunIsTail(rest, base);
  }

  lemma RunIsTail(s: string, base: nat)
    requires DigitRun(s, base)
    ensures DigitTail(s, base)
  {
  }

  lemma {:induction false} PlainConcat(a: string, b: string)
    ensures Plain(a + b) == Plain(a) + Plain(b)
  {
    if a == "" {
      assert a + b == b;
    } else {
      assert (a + b)[1..] == a[1..] + b;
      PlainConcat(a[1..], b);
    }
  }

  /** Digits, leading zeros included, and their underscores. */
  datatype Run = Run(digits: string, marks: seq<bool>)

  predicate RunFits(r: Run, base: nat) {
    r.digits != "" && AllIn(r.digits, base)
  }

  function RunText(r: Run): string {
    Spaced(r.digits, r.marks)
  }

  /** Every run of digits and underscores is such a text. */
  lemma {:induction false} RunFrom(s: string, base: nat) returns (r: Run)
    requires DigitRun(s, base) && base <= 16
    ensures RunFits(r, base) && RunText(r) == s && r.digits[0] == s[0]
    decreases |s|
  {
    if |s| == 1 {
      r := Run(s, []);
    } else if s[1] == '_' {
      assert s[1..][1] == s[2] && s[1..][2..] == s[3..] && s[2..][1..] == s[3..];
      var more := RunFrom(s[2..], base);
      r := OneMore(s[0], true, more, base);
      assert s == [s[0], '_'] + s[2..];
    } else {
      assert s[1..][0] == s[1] && s[1..][1..] == s[2..];
      var more := RunFrom(s[1..], base);
      r := OneMore(s[0], false, more, base);
      assert s == [s[0]] + s[1..];
    }
  }

  lemma OneMore(c: char, mark: bool, more: Run, base: nat) returns (r: Run)
    requires RunFits(more, base) && IsIn(c, base)
    ensures RunFits(r, base) && r.digits[0] == c
    ensures RunText(r) == (if mark then [c, '_'] else [c]) + RunText(more)
  {
    r := Run([c] + more.digits, [mark] + more.marks);
    assert r.digits[1..] == more.digits && r.marks[1..] == more.marks;
    forall i | 0 <= i < |r.digits| ensures IsIn(r.digits[i], base) {
      if i > 0 { assert r.digits[i] == more.digits[i - 1]; }
    }
  }

  lemma {:induction false} AllInIsHex(s: string, base: nat)
    requires AllIn(s, base)
    ensures AllHex(s)
  {
    forall i | 0 <= i < |s| ensures HexDigit(s[i]).Some? { assert IsIn(s[i], base); }
  }

  // ---------------------------------------------------------------------------------
  // Integers
  // ---------------------------------------------------------------------------------

  /** No dash behind a digit and no colon: neither date nor time. */
  predicate Undated(s: string) {
    forall i | 0 <= i < |s| :: s[i] != ':' && (i > 0 && s[i] == '-' ==> !IsDigit(s[i - 1]))
  }

  lemma UndatedHasNone(s: string)
    requires Undated(s)
    ensures !HasDateOrTime(s)
  {
    forall i | 0 <= i < |s| ensures !DateAt(s, i) && !TimeAt(s, i) {
      assert i + 4 < |s| ==> (s[i + 4] == '-' ==> !IsDigit(s[i + 4 - 1]));
      assert i + 2 < |s| ==> s[i + 2] != ':';
    }
  }

  datatype Base = Binary | Octal | Hexadecimal

  function Radix(b: Base): nat {
    match b
    case Binary => 2
    case Octal => 8
    case Hexadecimal => 16
  }

  function Letter(b: Base): char {
    match b
    case Binary => 'b'
    case Octal => 'o'
    case Hexadecimal => 'x'
  }

  lemma PrefixIs(b: Base, run: string)
    requires DigitRun(run, Radix(b))
    ensures PrefixBase("0" + [Letter(b)] + run) == Some(Radix(b))
  {
    var s := "0" + [Letter(b)] + run;
    assert s[0] == '0' && s[1] == Letter(b) && s[2..] == run;
  }

  lemma PrefixedMeans(b: Base, n: nat, run: string)
    requires DigitRun(run, Radix(b)) && AllHex(Plain(run)) && Digits(Plain(run), Radix(b)) == n
    ensures var s := "0" + [Letter(b)] + run;
            PrefixBase(s) == Some(Radix(b)) && PrefixedValue(s) == n && s != "true" && s != "false"
  {
    var s := "0" + [Letter(b)] + run;
    PrefixIs(b, run);
    assert s[2..] == run && s[0] == '0';
    assert "true"[0] == 't' && "false"[0] == 'f';
  }

  lemma PrefixedIsUndated(b: Base, run: string)
    requires forall c | c in run :: c == '_' || IsIn(c, Radix(b))
    ensures !HasDateOrTime("0" + [Letter(b)] + run)
  {
    var s := "0" + [Letter(b)] + run;
    forall i | 0 <= i < |s| ensures s[i] != ':' && s[i] != '-' {
      if i >= 2 { assert s[i] == run[i - 2] && run[i - 2] in run; }
    }
    UndatedHasNone(s);
  }

  lemma ScalarOfPrefixed(b: Base, r: Run)
    requires RunFits(r, Radix(b)) && AllHex(r.digits)
    ensures Scalar("0" + [Letter(b)] + RunText(r)) == Ok(Int(Digits(r.digits, Radix(b))))
  {
    SpacedRun(r.digits, r.marks, Radix(b));
    PrefixedMeans(b, Digits(r.digits, Radix(b)), RunText(r));
    PrefixedIsUndated(b, RunText(r));
  }

  /** Every number in a prefixed base, with digits of either case and any underscores, is read as itself. */
  lemma PrefixedNumber(b: Base, n: nat, upper: bool, marks: seq<bool>)
    ensures Scalar("0" + [Letter(b)] + Spaced(Numeral(n, Radix(b), upper), marks)) == Ok(Int(n))
  {
    NumeralValue(n, Radix(b), upper);
    ScalarOfPrefixed(b, Run(Numeral(n, Radix(b), upper), marks));
  }

  /** An optional sign. */
  datatype Sign = Unmarked | Plus | Minus

  function SignText(sign: Sign): string {
    match sign
    case Unmarked => ""
    case Plus => "+"
    case Minus => "-"
  }

  function Signed(sign: Sign, n: nat): int {
    if sign.Minus? then 0 - n else n
  }

  /** Decimal digits without a superfluous leading zero. */
  predicate Whole(r: Run) {
    RunFits(r, 10) && (r.digits == "0" || r.digits[0] != '0')
  }

  lemma UnsignedSign(sign: Sign, s: string)
    requires s != "" && s[0] != '+' && s[0] != '-'
    ensures Unsigned(SignText(sign) + s) == s
  {
    if sign.Unmarked? {
      assert SignText(sign) + s == s;
    } else {
      assert (SignText(sign) + s)[1..] == s;
    }
  }

  lemma WholeRun(r: Run)
    requires Whole(r)
    ensures var s := RunText(r);
            IsDecimal(s) && Plain(s) == r.digits && IsDigit(s[0]) && forall c | c in s :: IsRunChar(c)
  {
    SpacedRun(r.digits, r.marks, 10);
    forall c | c in RunText(r) ensures IsRunChar(c) {
      if c != '_' { assert IsIn(c, 10); }
    }
  }

  lemma DecimalMeans(sign: Sign, r: Run)
    requires Whole(r) && AllHex(r.digits)
    ensures var token := SignText(sign) + RunText(r);
            IsDecimal(Unsigned(token)) && DecimalValue(token) == Signed(sign, Digits(r.digits, 10))
  {
    WholeRun(r);
    UnsignedSign(sign, RunText(r));
    var token := SignText(sign) + RunText(r);
    assert token[0] == if sign.Unmarked? then RunText(r)[0] else SignText(sign)[0];
  }

  predicate IsRunChar(c: char) {
    IsDigit(c) || c == '_'
  }

  /** A token that starts like a number is neither truth value nor, without a letter second, prefixed. */
  lemma NumberIsNoWord(token: string)
    requires token != "" && (IsDigit(token[0]) || token[0] == '+' || token[0] == '-')
    ensures token != "true" && token != "false"
    ensures |token| > 1 && token[1] !in "xob" ==> PrefixBase(token).None?
    ensures |token| == 1 ==> PrefixBase(token).None?
    ensures token[0] != '0' ==> PrefixBase(token).None?
  {
    assert "true"[0] == 't' && "false"[0] == 'f';
    assert "xob"[0] == 'x' && "xob"[1] == 'o' && "xob"[2] == 'b';
  }

  lemma ScalarOfDecimal(sign: Sign, r: Run)
    requires Whole(r) && AllHex(r.digits)
    ensures Scalar(SignText(sign) + RunText(r)) == Ok(Int(Signed(sign, Digits(r.digits, 10))))
  {
    var run := RunText(r);
    var token := SignText(sign) + run;
    WholeRun(r);
    DecimalMeans(sign, r);
    SignedChars(sign, run);
    NumberIsNoWord(token);
    UndatedHasNone(token);
    assert PrefixBase(token).None? by {
      if |token| > 1 { assert token[1] in run; }
    }
  }

  /** Every decimal, signed or not, with any underscores, is read as itself. */
  lemma DecimalNumber(sign: Sign, n: nat, marks: seq<bool>)
    ensures Scalar(SignText(sign) + Spaced(Numeral(n, 10, false), marks)) == Ok(Int(Signed(sign, n)))
  {
    NumeralValue(n, 10, false);
    assert n == 0 ==> Numeral(n, 10, false) == "0";
    ScalarOfDecimal(sign, Run(Numeral(n, 10, false), marks));
  }

  lemma SignedChars(sign: Sign, run: string)
    requires run != "" && IsDigit(run[0]) && forall c | c in run :: IsRunChar(c)
    ensures var token := SignText(sign) + run;
            && (IsDigit(token[0]) || token[0] == '+' || token[0] == '-')
            && (|token| > 1 ==> token[1] in run) && Undated(token)
  {
    var token, k := SignText(sign) + run, |SignText(sign)|;
    forall i | 0 <= i < |token| ensures token[i] != ':' && (i > 0 && token[i] == '-' ==> !IsDigit(token[i - 1])) {
      if i >= k { assert token[i] == run[i - k] && run[i - k] in run; }
    }
    if |token| > 1 { assert token[1] == run[1 - k]; }
  }

  // ---------------------------------------------------------------------------------
  // Floats
  // ---------------------------------------------------------------------------------

  datatype Exponent = Exponent(letter: char, sign: Sign, run: Run)

  function FractionText(fraction: Option<Run>): string {
    match fraction
    case None => ""
    case Some(r) => "." + RunText(r)
  }

  function ExponentText(exponent: Option<Exponent>): string {
    match exponent
    case None => ""
    case Some(e) => [e.letter] + (SignText(e.sign) + RunText(e.run))
  }

  lemma RunChars(r: Run)
    requires RunFits(r, 10)
    ensures var s := RunText(r);
            s != "" && IsDigit(s[0]) && DigitRun(s, 10) && Plain(s) == r.digits && forall c | c in s :: IsRunChar(c)
  {
    SpacedRun(r.digits, r.marks, 10);
    forall c | c in RunText(r) ensures IsRunChar(c) {
      if c != '_' { assert IsIn(c, 10); }
    }
  }

  lemma {:induction false} RunLengthOf(run: string, tail: string)
    requires (forall c | c in run :: IsRunChar(c)) && (tail == "" || !IsRunChar(tail[0]))
    ensures RunLength(run + tail) == |run| && (run + tail)[..|run|] == run && (run + tail)[|run|..] == tail
  {
    if run == "" {
      assert run + tail == tail;
    } else {
      assert run[0] in run && (run + tail)[1..] == run[1..] + tail;
      RunLengthOf(run[1..], tail);
    }
  }

  lemma ExponentIs(exponent: Option<Exponent>)
    requires exponent.Some? ==> (exponent.value.letter == 'e' || exponent.value.letter == 'E') && RunFits(exponent.value.run, 10)
    ensures IsExponent(ExponentText(exponent))
    ensures ExponentText(exponent) == "" || !IsRunChar(ExponentText(exponent)[0])
  {
    if exponent.Some? {
      var e := exponent.value;
      RunChars(e.run);
      UnsignedSign(e.sign, RunText(e.run));
      assert ExponentText(exponent)[1..] == SignText(e.sign) + RunText(e.run);
    }
  }

  lemma FloatWithoutFraction(run: string, e: string)
    requires IsDecimal(run) && run[0] != '+' && run[0] != '-' && forall c | c in run :: IsRunChar(c)
    requires IsExponent(e) && (e == "" || !IsRunChar(e[0])) && !StartsWith(e, '.')
    ensures Unsigned(run + e) == run + e && IsFloat(run + e)
  {
    assert (run + e)[0] == run[0];
    RunLengthOf(run, e);
  }

  lemma FloatWithFraction(run: string, f: string, e: string)
    requires IsDecimal(run) && run[0] != '+' && run[0] != '-' && forall c | c in run :: IsRunChar(c)
    requires DigitRun(f, 10) && forall c | c in f :: IsRunChar(c)
    requires IsExponent(e) && (e == "" || !IsRunChar(e[0]))
    ensures Unsigned(run + ("." + (f + e))) == run + ("." + (f + e)) && IsFloat(run + ("." + (f + e)))
  {
    var u, tail := run + ("." + (f + e)), "." + (f + e);
    assert u[0] == run[0] && tail[0] == '.' && tail[1..] == f + e;
    RunLengthOf(run, tail);
    assert u[|run| + 1..] == f + e;
    RunLengthOf(f, e);
  }

  /** The number before an optional fraction and exponent. */
  datatype FloatParts = FloatParts(sign: Sign, whole: Run, fraction: Option<Run>, exponent: Option<Exponent>)

  predicate IsFloatParts(p: FloatParts) {
    && Whole(p.whole) && (p.fraction.Some? || p.exponent.Some?)
    && (p.fraction.Some? ==> RunFits(p.fraction.value, 10))
    && (p.exponent.Some? ==> (p.exponent.value.letter == 'e' || p.exponent.value.letter == 'E') && RunFits(p.exponent.value.run, 10))
  }

  /** What follows the whole number, from the point or the letter on. */
  function TailText(p: FloatParts): string {
    FractionText(p.fraction) + ExponentText(p.exponent)
  }

  function FloatToken(p: FloatParts): string {
    SignText(p.sign) + (RunText(p.whole) + TailText(p))
  }

  /** The same without underscores. */
  function PlainToken(p: FloatParts): string {
    SignText(p.sign) + (p.whole.digits +
    ((match p.fraction case None => "" case Some(r) => "." + r.digits) +
     (match p.exponent case None => "" case Some(e) => [e.letter] + (SignText(e.sign) + e.run.digits))))
  }

  lemma TailStarts(p: FloatParts)
    requires IsFloatParts(p)
    ensures var t := TailText(p); t != "" && t[0] in ".eE" && !IsRunChar(t[0]) && t[0] in t
  {
    assert ".eE"[0] == '.' && ".eE"[1] == 'e' && ".eE"[2] == 'E';
    if p.fraction.None? { assert TailText(p) == ExponentText(p.exponent); }
  }

  lemma FloatIs(p: FloatParts)
    requires IsFloatParts(p)
    ensures var u := RunText(p.whole) + TailText(p); Unsigned(u) == u && IsFloat(u)
  {
    WholeRun(p.whole);
    ExponentIs(p.exponent);
    TailIs(p);
    if p.fraction.Some? {
      RunChars(p.fraction.value);
      FloatWithFraction(RunText(p.whole), RunText(p.fraction.value), ExponentText(p.exponent));
    } else {
      FloatWithoutFraction(RunText(p.whole), ExponentText(p.exponent));
    }
  }

  lemma TailIs(p: FloatParts)
    ensures var e := ExponentText(p.exponent);
            TailText(p) == if p.fraction.Some? then "." + (RunText(p.fraction.value) + e) else e
  {
    if p.fraction.Some? {
      Regroup(".", RunText(p.fraction.value), ExponentText(p.exponent));
    } else {
      assert "" + ExponentText(p.exponent) == ExponentText(p.exponent);
    }
  }

  lemma Regroup(a: string, b: string, c: string)
    ensures a + b + c == a + (b + c)
  {
  }

  lemma {:induction false} DecimalTailChars(s: string)
    requires DigitTail(s, 10)
    ensures forall c | c in s :: IsRunChar(c)
  {
    if s != "" {
      if IsIn(s[0], 10) {
        DecimalTailChars(s[1..]);
      } else {
        DecimalTailChars(s[2..]);
        assert s == [s[0], s[1]] + s[2..];
      }
    }
  }

  lemma FloatIsNotDecimal(p: FloatParts)
    requires IsFloatParts(p)
    ensures !IsDecimal(RunText(p.whole) + TailText(p))
  {
    WholeRun(p.whole);
    TailStarts(p);
    MarkIsNotDecimal(RunText(p.whole), TailText(p));
  }

  lemma MarkIsNotDecimal(run: string, t: string)
    requires run != "" && t != "" && !IsRunChar(t[0])
    ensures !IsDecimal(run + t)
  {
    var u := run + t;
    assert u[|run|] == t[0] && u[1..][|run| - 1] == t[0];
    if DigitTail(u[1..], 10) { DecimalTailChars(u[1..]); }
  }

  lemma UndatedConcat(a: string, b: string)
    requires Undated(a) && Undated(b) && (a == "" || b == "" || b[0] != '-' || !IsDigit(a[|a| - 1]))
    ensures Undated(a + b)
  {
    var s := a + b;
    forall i | 0 <= i < |s| ensures s[i] != ':' && (i > 0 && s[i] == '-' ==> !IsDigit(s[i - 1])) {
      if i < |a| {
        assert s[i] == a[i] && (i > 0 ==> s[i - 1] == a[i - 1]);
      } else {
        assert s[i] == b[i - |a|] && (i > |a| ==> s[i - 1] == b[i - 1 - |a|]);
      }
    }
  }

  lemma RunIsUndated(s: string)
    requires forall c | c in s :: IsRunChar(c)
    ensures Undated(s)
  {
    forall i | 0 <= i < |s| ensures s[i] != ':' && s[i] != '-' { assert s[i] in s; }
  }

  lemma FloatIsUndated(p: FloatParts)
    requires IsFloatParts(p)
    ensures Undated(FloatToken(p))
  {
    WholeRun(p.whole);
    RunIsUndated(RunText(p.whole));
    assert Undated(FractionText(p.fraction)) by {
      if p.fraction.Some? {
        RunChars(p.fraction.value);
        RunIsUndated(RunText(p.fraction.value));
        UndatedConcat(".", RunText(p.fraction.value));
      }
    }
    assert Undated(ExponentText(p.exponent)) by {
      if p.exponent.Some? {
        var e := p.exponent.value;
        RunChars(e.run);
        RunIsUndated(RunText(e.run));
        UndatedConcat(SignText(e.sign), RunText(e.run));
        UndatedConcat([e.letter], SignText(e.sign) + RunText(e.run));
      }
    }
    UndatedConcat(FractionText(p.fraction), ExponentText(p.exponent));
    TailStarts(p);
    UndatedConcat(RunText(p.whole), TailText(p));
    UndatedConcat(SignText(p.sign), RunText(p.whole) + TailText(p));
  }

  lemma PlainOf(p: FloatParts)
    requires IsFloatParts(p)
    ensures Plain(FloatToken(p)) == PlainToken(p)
  {
    WholeRun(p.whole);
    PlainConcat(SignText(p.sign), RunText(p.whole) + TailText(p));
    PlainConcat(RunText(p.whole), TailText(p));
    PlainConcat(FractionText(p.fraction), ExponentText(p.exponent));
    PlainSign(p.sign);
    if p.fraction.Some? {
      RunChars(p.fraction.value);
      PlainConcat(".", RunText(p.fraction.value));
      PlainOne('.');
    }
    if p.exponent.Some? {
      var e := p.exponent.value;
      RunChars(e.run);
      PlainConcat([e.letter], SignText(e.sign) + RunText(e.run));
      PlainConcat(SignText(e.sign), RunText(e.run));
      PlainSign(e.sign);
      PlainOne(e.letter);
    }
  }

  lemma PlainOne(c: char)
    requires c != '_'
    ensures Plain([c]) == [c]
  {
    assert [c][1..] == "";
  }

  lemma PlainSign(sign: Sign)
    ensures Plain(SignText(sign)) == SignText(sign)
  {
    if !sign.Unmarked? { PlainOne(SignText(sign)[0]); }
  }

  /** Every float, with or without sign, fraction and exponent, is kept as its text less the underscores. */
  lemma ScalarOfFloat(p: FloatParts)
    requires IsFloatParts(p)
    ensures Scalar(FloatToken(p)) == Ok(Float(PlainToken(p)))
  {
    var token := FloatToken(p);
    assert IsFloat(token) && !IsDecimal(Unsigned(token)) by { FloatIsFloat(p); }
    assert '.' in token || 'e' in token || 'E' in token by { FloatIsMarked(p); }
    assert !HasDateOrTime(token) by {
      FloatIsUndated(p);
      UndatedHasNone(token);
    }
    FloatIsNoPrefix(p);
    PlainOf(p);
  }

  lemma FloatIsFloat(p: FloatParts)
    requires IsFloatParts(p)
    ensures IsFloat(FloatToken(p)) && !IsDecimal(Unsigned(FloatToken(p)))
  {
    var u := RunText(p.whole) + TailText(p);
    WholeRun(p.whole);
    FloatIs(p);
    FloatIsNotDecimal(p);
    assert u[0] == RunText(p.whole)[0];
    UnsignedSign(p.sign, u);
  }

  lemma FloatIsMarked(p: FloatParts)
    requires IsFloatParts(p)
    ensures var t := FloatToken(p); '.' in t || 'e' in t || 'E' in t
  {
    TailStarts(p);
    assert ".eE"[0] == '.' && ".eE"[1] == 'e' && ".eE"[2] == 'E';
    assert FloatToken(p)[|SignText(p.sign)| + |RunText(p.whole)|] == TailText(p)[0];
  }

  lemma FloatIsNoPrefix(p: FloatParts)
    requires IsFloatParts(p)
    ensures var t := FloatToken(p); t != "true" && t != "false" && PrefixBase(t).None?
  {
    var t, run := FloatToken(p), RunText(p.whole);
    WholeRun(p.whole);
    TailStarts(p);
    assert t[0] == if p.sign.Unmarked? then run[0] else SignText(p.sign)[0];
    NumberIsNoWord(t);
    if t[0] == '0' {
      SpacedRun(p.whole.digits, p.whole.marks, 10);
      assert run == "0";
      assert t[1] == TailText(p)[0];
    }
  }

  // ---------------------------------------------------------------------------------
  // All scalar tokens
  // ---------------------------------------------------------------------------------

  datatype Form =
    | Truth(truth: bool)
    | Prefixed(base: Base, run: Run)
    | Decimal(sign: Sign, run: Run)
    | Floating(parts: FloatParts)

  predicate FormFits(form: Form) {
    match form
    case Truth(_) => true
    case Prefixed(base, run) => RunFits(run, Radix(base)) && AllHex(run.digits)
    case Decimal(_, run) => Whole(run) && AllHex(run.digits)
    case Floating(parts) => IsFloatParts(parts)
  }

  function FormText(form: Form): string {
    match form
    case Truth(truth) => if truth then "true" else "false"
    case Prefixed(base, run) => "0" + [Letter(base)] + RunText(run)
    case Decimal(sign, run) => SignText(sign) + RunText(run)
    case Floating(parts) => FloatToken(parts)
  }

  function FormValue(form: Form): Value
    requires FormFits(form)
  {
    match form
    case Truth(truth) => Bool(truth)
    case Prefixed(base, run) => Int(Digits(run.digits, Radix(base)))
    case Decimal(sign, run) => Int(Signed(sign, Digits(run.digits, 10)))
    case Floating(parts) => Float(PlainToken(parts))
  }

  lemma FormRead(form: Form)
    requires FormFits(form)
    ensures Scalar(FormText(form)) == Ok(FormValue(form))
  {
    match form
    case Truth(_) =>
    case Prefixed(base, run) => ScalarOfPrefixed(base, run);
    case Decimal(sign, run) => ScalarOfDecimal(sign, run);
    case Floating(parts) => ScalarOfFloat(parts);
  }

  lemma SignFrom(s: string) returns (sign: Sign)
    ensures s == SignText(sign) + Unsigned(s)
  {
    if s != "" && s[0] == '+' {
      sign := Plus;
    } else if s != "" && s[0] == '-' {
      sign := Minus;
    } else {
      sign := Unmarked;
    }
  }

  lemma WholeFrom(s: string) returns (r: Run)
    requires IsDecimal(s)
    ensures Whole(r) && RunText(r) == s
  {
    if s == "0" {
      r := Run("0", []);
    } else {
      r := RunFrom(s, 10);
    }
  }

  lemma ExponentFrom(s: string) returns (e: Option<Exponent>)
    requires IsExponent(s)
    ensures e.Some? ==> (e.value.letter == 'e' || e.value.letter == 'E') && RunFits(e.value.run, 10)
    ensures ExponentText(e) == s && (e.None? <==> s == "")
  {
    if s == "" {
      e := None;
    } else {
      var sign := SignFrom(s[1..]);
      var run := RunFrom(Unsigned(s[1..]), 10);
      e := Some(Exponent(s[0], sign, run));
      assert s == [s[0]] + s[1..];
    }
  }

  /** The fraction and exponent behind the whole number. */
  lemma TailFrom(s: string) returns (fraction: Option<Run>, exponent: Option<Exponent>)
    requires if StartsWith(s, '.') then var f := s[1..]; DigitRun(f[..RunLength(f)], 10) && IsExponent(f[RunLength(f)..])
             else IsExponent(s)
    ensures fraction.Some? ==> RunFits(fraction.value, 10)
    ensures exponent.Some? ==> (exponent.value.letter == 'e' || exponent.value.letter == 'E') && RunFits(exponent.value.run, 10)
    ensures FractionText(fraction) + ExponentText(exponent) == s && (fraction.None? && exponent.None? ==> s == "")
  {
    if StartsWith(s, '.') {
      fraction, exponent := PointFrom(s, RunLength(s[1..]));
    } else {
      fraction := None;
      exponent := ExponentFrom(s);
      assert "" + s == s;
    }
  }

  lemma PointFrom(s: string, k: nat) returns (fraction: Option<Run>, exponent: Option<Exponent>)
    requires StartsWith(s, '.') && k <= |s| - 1 && DigitRun(s[1..][..k], 10) && IsExponent(s[1..][k..])
    ensures fraction.Some? && RunFits(fraction.value, 10)
    ensures exponent.Some? ==> (exponent.value.letter == 'e' || exponent.value.letter == 'E') && RunFits(exponent.value.run, 10)
    ensures FractionText(fraction) + ExponentText(exponent) == s
  {
    var run := RunFrom(s[1..][..k], 10);
    exponent := ExponentFrom(s[1..][k..]);
    fraction := Some(run);
    SplitAt(s[1..], k);
    PointText(s, s[1..][..k], s[1..][k..]);
  }

  lemma SplitAt(s: string, k: nat)
    requires k <= |s|
    ensures s == s[..k] + s[k..]
  {
  }

  lemma PointText(s: string, a: string, b: string)
    requires StartsWith(s, '.') && s[1..] == a + b
    ensures "." + a + b == s
  {
    assert s == "." + s[1..];
    Regroup(".", a, b);
  }

  lemma FloatFrom(token: string) returns (p: FloatParts)
    requires IsFloat(token) && ('.' in token || 'e' in token || 'E' in token)
    ensures IsFloatParts(p) && FloatToken(p) == token
  {
    var sign := SignFrom(token);
    var u := Unsigned(token);
    var n := RunLength(u);
    var tail := u[n..];
    assert u == u[..n] + tail;
    assert StartsWith(tail, '.') ==> u[n + 1..] == tail[1..];
    var whole := WholeFrom(u[..n]);
    var fraction, exponent := TailFrom(tail);
    p := FloatParts(sign, whole, fraction, exponent);
    if fraction.None? && exponent.None? {
      WholeHasNoMark(sign, whole, token, u);
      assert false;
    }
  }

  lemma WholeHasNoMark(sign: Sign, whole: Run, token: string, u: string)
    requires Whole(whole) && token == SignText(sign) + u && u == RunText(whole) + ""
    ensures '.' !in token && 'e' !in token && 'E' !in token
  {
    WholeRun(whole);
    assert u == RunText(whole);
    forall c | c in token ensures IsRunChar(c) || c == '+' || c == '-' {
      if c !in u { assert c in SignText(sign); }
    }
  }

  lemma PrefixFrom(token: string) returns (form: Form)
    requires PrefixBase(token).Some?
    ensures FormFits(form) && FormText(form) == token
  {
    var base := if token[1] == 'x' then Hexadecimal else if token[1] == 'o' then Octal else Binary;
    var run := RunFrom(token[2..], Radix(base));
    AllInIsHex(run.digits, Radix(base));
    form := Prefixed(base, run);
    assert token == "0" + [token[1]] + token[2..];
  }

  lemma FormFrom(token: string) returns (form: Form)
    requires Scalar(token).Ok?
    ensures FormFits(form) && FormText(form) == token
  {
    if token == "true" || token == "false" {
      form := Truth(token == "true");
    } else if PrefixBase(token).Some? {
      form := PrefixFrom(token);
    } else if IsDecimal(Unsigned(token)) {
      var sign := SignFrom(token);
      var run := WholeFrom(Unsigned(token));
      AllInIsHex(run.digits, 10);
      form := Decimal(sign, run);
    } else {
      var parts := FloatFrom(token);
      form := Floating(parts);
    }
  }

  /** A token is a scalar value if and only if it is written as a truth value, an integer or a float of that value. */
  lemma ScalarIff(token: string, v: Value)
    ensures Scalar(token) == Ok(v) <==> exists form :: FormFits(form) && FormText(form) == token && FormValue(form) == v
  {
    if Scalar(token).Ok? {
      var form := FormFrom(token);
      FormRead(form);
    }
    if form :| FormFits(form) && FormText(form) == token && FormValue(form) == v { FormRead(form); }
  }
}
