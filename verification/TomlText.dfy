/**
  The scanner of scripts/toml_reader.py as functions from the unread text to what is read
  and the text left: blanks, keys, strings and scalar tokens.
 */
module TomlText {
  import opened Wrappers

  /**
    Values of the accepted subset.  A table keeps its keys in insertion order next to their
    values; a float is kept as its digits.
   */
  datatype Value =
    | Str(text: string)
    | Int(number: int)
    | Bool(truth: bool)
    | Float(digits: string)
    | Array(items: seq<Value>)
    | Table(keys: seq<string>, values: seq<Value>)

  /** Why a text is refused; `Crash` is a failure the reader does not report as a decode error. */
  datatype Fault =
    | Unexpected
    | Unterminated
    | BadEscape
    | Unsupported
    | NotATable
    | DuplicateKey
    | Redefined
    | Crash

  /** A reading: the thing read and the rest of the text. */
  datatype Read<+T> = Got(value: T, rest: string) | Fail(fault: Fault)

  predicate StartsWith(s: string, c: char) {
    s != "" && s[0] == c
  }

  // ---------------------------------------------------------------------------------
  // Blanks
  // ---------------------------------------------------------------------------------

  predicate IsSpaceOrTab(c: char) {
    c == ' ' || c == '\t'
  }

  predicate IsLineEnd(c: char) {
    c == '\r' || c == '\n'
  }

  function SkipSpaces(s: string): (r: string)
    ensures |r| <= |s|
    ensures r == "" || !IsSpaceOrTab(r[0])
  {
    if s != "" && IsSpaceOrTab(s[0]) then SkipSpaces(s[1..]) else s
  }

  function ToLineFeed(s: string): (r: string)
    ensures |r| <= |s|
    ensures r == "" || r[0] == '\n'
  {
    if s == "" || s[0] == '\n' then s else ToLineFeed(s[1..])
  }

  function SkipComment(s: string): (r: string)
    ensures |r| <= |s|
    ensures StartsWith(s, '#') ==> |r| < |s|
  {
    if StartsWith(s, '#') then ToLineFeed(s[1..]) else s
  }

  function SkipBlanks(s: string): (r: string)
    ensures |r| <= |s|
    ensures r == "" || (!IsSpaceOrTab(r[0]) && !IsLineEnd(r[0]) && r[0] != '#')
    decreases |s|
  {
    if s == "" then s
    else if IsSpaceOrTab(s[0]) || IsLineEnd(s[0]) then SkipBlanks(s[1..])
    else if s[0] == '#' then SkipBlanks(SkipComment(s))
    else s
  }

  function EndOfStatement(s: string): (r: Read<()>)
    ensures r.Got? ==> |r.rest| <= |s|
  {
    var t := SkipComment(SkipSpaces(s));
    if t == "" then Got((), t)
    else if IsLineEnd(t[0]) then Got((), t[1..])
    else Fail(Unexpected)
  }

  function Expect(s: string, c: char): (r: Read<()>)
    ensures r.Got? ==> |r.rest| < |s|
  {
    if StartsWith(s, c) then Got((), s[1..]) else Fail(Unexpected)
  }

  // ---------------------------------------------------------------------------------
  // Strings
  // ---------------------------------------------------------------------------------

  function Push(cs: string, r: Read<string>): Read<string> {
    match r
    case Got(text, rest) => Got(cs + text, rest)
    case Fail(f) => Fail(f)
  }

  lemma PushNothing(r: Read<string>)
    ensures Push("", r) == r
  {
    if r.Got? { assert "" + r.value == r.value; }
  }

  lemma PushPush(a: string, b: string, r: Read<string>)
    ensures Push(a, Push(b, r)) == Push(a + b, r)
  {
    if r.Got? { assert a + (b + r.value) == a + b + r.value; }
  }

  function SimpleEscape(c: char): Option<char> {
    if c == '"' then Some('"')
    else if c == '\\' then Some('\\')
    else if c == 'b' then Some('\U{8}')
    else if c == 'f' then Some('\U{c}')
    else if c == 'n' then Some('\n')
    else if c == 'r' then Some('\r')
    else if c == 't' then Some('\t')
    else None
  }

  function HexDigit(c: char): Option<nat> {
    if '0' <= c <= '9' then Some(c as int - '0' as int)
    else if 'a' <= c <= 'f' then Some(c as int - 'a' as int + 10)
    else if 'A' <= c <= 'F' then Some(c as int - 'A' as int + 10)
    else None
  }

  predicate AllHex(s: string) {
    forall i | 0 <= i < |s| :: HexDigit(s[i]).Some?
  }

  function Digits(s: string, base: nat): nat
    requires AllHex(s)
  {
    if s == "" then 0 else Digits(s[..|s| - 1], base) * base + HexDigit(s[|s| - 1]).value
  }

  function CodePoint(n: nat): Option<char> {
    if n < 0xD800 || 0xE000 <= n < 0x11_0000 then Some(n as char) else None
  }

  /** Beyond the last code point the conversion itself fails; surrogates are refused here. */
  function PointFault(n: nat): Fault {
    if n < 0x11_0000 then BadEscape else Crash
  }

  /** The four or eight hexadecimal digits of a `\u` or `\U` escape, after its letter. */
  function UnicodeEscape(s: string, width: nat): (r: Read<char>)
    ensures r.Got? ==> |r.rest| <= |s|
  {
    if |s| < width || !AllHex(s[..width]) then Fail(BadEscape)
    else
      match CodePoint(Digits(s[..width], 16))
      case None => Fail(PointFault(Digits(s[..width], 16)))
      case Some(c) => Got(c, s[width..])
  }

  /** The rest of an escape sequence, after the backslash. */
  function Escape(s: string): (r: Read<char>)
    ensures r.Got? ==> |r.rest| < |s|
  {
    if s == "" then Fail(Unterminated)
    else if SimpleEscape(s[0]).Some? then Got(SimpleEscape(s[0]).value, s[1..])
    else if s[0] == 'u' then UnicodeEscape(s[1..], 4)
    else if s[0] == 'U' then UnicodeEscape(s[1..], 8)
    else Fail(BadEscape)
  }

  /** Each hexadecimal digit is worth less than sixteen. */
  lemma {:induction false} DigitsBelow(s: string, bound: nat)
    requires AllHex(s) && |s| <= 4 && bound == (if |s| == 0 then 1 else if |s| == 1 then 0x10 else if |s| == 2 then 0x100
                                                else if |s| == 3 then 0x1000 else 0x1_0000)
    ensures Digits(s, 16) < bound
  {
    if s != "" {
      DigitsBelow(s[..|s| - 1], bound / 16);
      assert HexDigit(s[|s| - 1]).value < 16;
    }
  }

  /** An escape fails with something else than a decode error exactly when it names no code point at all. */
  lemma EscapeCrashesIff(s: string)
    ensures Escape(s) == Fail(Crash) <==>
            |s| >= 9 && s[0] == 'U' && AllHex(s[1..9]) && Digits(s[1..9], 16) >= 0x11_0000
  {
    if |s| >= 9 { assert s[1..][..8] == s[1..9]; }
    if |s| >= 5 && s[0] == 'u' && AllHex(s[1..][..4]) { DigitsBelow(s[1..][..4], 0x1_0000); }
  }

  /** A basic string after its opening quote. */
  function BasicBody(s: string): (r: Read<string>)
    ensures r.Got? ==> |r.rest| < |s|
    decreases |s|
  {
    if s == "" || IsLineEnd(s[0]) then Fail(Unterminated)
    else if s[0] == '"' then Got("", s[1..])
    else if s[0] != '\\' then Push([s[0]], BasicBody(s[1..]))
    else
      match Escape(s[1..])
      case Fail(f) => Fail(f)
      case Got(c, rest) => Push([c], BasicBody(rest))
  }

  function BasicString(s: string): (r: Read<string>)
    ensures r.Got? ==> |r.rest| < |s|
  {
    if "\"\"\"" <= s then Fail(Unsupported)
    else if !StartsWith(s, '"') then Fail(Unexpected)
    else BasicBody(s[1..])
  }

  function LiteralBody(s: string): (r: Read<string>)
    ensures r.Got? ==> |r.rest| < |s|
  {
    if s == "" || IsLineEnd(s[0]) then Fail(Unterminated)
    else if s[0] == '\'' then Got("", s[1..])
    else Push([s[0]], LiteralBody(s[1..]))
  }

  function LiteralString(s: string): (r: Read<string>)
    ensures r.Got? ==> |r.rest| < |s|
  {
    if "'''" <= s then Fail(Unsupported)
    else if !StartsWith(s, '\'') then Fail(Unexpected)
    else LiteralBody(s[1..])
  }

  // ---------------------------------------------------------------------------------
  // Keys
  // ---------------------------------------------------------------------------------

  predicate IsBare(c: char) {
    'A' <= c <= 'Z' || 'a' <= c <= 'z' || '0' <= c <= '9' || c == '_' || c == '-'
  }

  function BareLength(s: string): (n: nat)
    ensures n <= |s|
    ensures forall i | 0 <= i < n :: IsBare(s[i])
    ensures n < |s| ==> !IsBare(s[n])
  {
    if s == "" || !IsBare(s[0]) then 0 else 1 + BareLength(s[1..])
  }

  function KeySegment(s: string): (r: Read<string>)
    ensures r.Got? ==> |r.rest| < |s|
  {
    if StartsWith(s, '"') then BasicString(s)
    else if StartsWith(s, '\'') then LiteralString(s)
    else
      var n := BareLength(s);
      if n == 0 then Fail(Unexpected) else Got(s[..n], s[n..])
  }

  function PushKey(k: string, r: Read<seq<string>>): Read<seq<string>> {
    match r
    case Got(ks, rest) => Got([k] + ks, rest)
    case Fail(f) => Fail(f)
  }

  /** A dotted key: one segment, and another after every dot. */
  function KeyPath(s: string): (r: Read<seq<string>>)
    ensures r.Got? ==> |r.rest| < |s| && r.value != []
    decreases |s|
  {
    match KeySegment(s)
    case Fail(f) => Fail(f)
    case Got(k, rest) =>
      var t := SkipSpaces(rest);
      if !StartsWith(t, '.') then Got([k], t) else PushKey(k, KeyPath(SkipSpaces(t[1..])))
  }

  // ---------------------------------------------------------------------------------
  // Scalar tokens
  // ---------------------------------------------------------------------------------

  /** Python's `\s`: every Unicode white space character. */
  predicate IsWhite(c: char) {
    var n := c as int;
    || 0x09 <= n <= 0x0D || 0x1C <= n <= 0x20 || n == 0x85 || n == 0xA0 || n == 0x1680
    || 0x2000 <= n <= 0x200A || n == 0x2028 || n == 0x2029 || n == 0x202F || n == 0x205F || n == 0x3000
  }

  predicate EndsToken(c: char) {
    IsWhite(c) || c == ',' || c == ']' || c == '}' || c == '#'
  }

  function TokenLength(s: string): (n: nat)
    ensures n <= |s|
    ensures forall i | 0 <= i < n :: !EndsToken(s[i])
    ensures n < |s| ==> EndsToken(s[n])
  {
    if s == "" || EndsToken(s[0]) then 0 else 1 + TokenLength(s[1..])
  }

  predicate IsDigit(c: char) {
    '0' <= c <= '9'
  }

  predicate IsIn(c: char, base: nat) {
    HexDigit(c).Some? && HexDigit(c).value < base
  }

  /** Digits of `base`, each preceded by at most one underscore. */
  predicate DigitTail(s: string, base: nat) {
    s == ""
    || (IsIn(s[0], base) && DigitTail(s[1..], base))
    || (s[0] == '_' && |s| > 1 && IsIn(s[1], base) && DigitTail(s[2..], base))
  }

  predicate DigitRun(s: string, base: nat) {
    s != "" && IsIn(s[0], base) && DigitTail(s[1..], base)
  }

  function Plain(s: string): (r: string)
    ensures '_' !in r
    ensures forall c | c in r :: c in s
  {
    if s == "" then ""
    else if s[0] == '_' then Plain(s[1..])
    else [s[0]] + Plain(s[1..])
  }

  predicate DateAt(s: string, i: nat) {
    && i + 10 <= |s|
    && IsDigit(s[i]) && IsDigit(s[i + 1]) && IsDigit(s[i + 2]) && IsDigit(s[i + 3]) && s[i + 4] == '-'
    && IsDigit(s[i + 5]) && IsDigit(s[i + 6]) && s[i + 7] == '-' && IsDigit(s[i + 8]) && IsDigit(s[i + 9])
  }

  predicate TimeAt(s: string, i: nat) {
    && i + 8 <= |s|
    && IsDigit(s[i]) && IsDigit(s[i + 1]) && s[i + 2] == ':' && IsDigit(s[i + 3]) && IsDigit(s[i + 4])
    && s[i + 5] == ':' && IsDigit(s[i + 6]) && IsDigit(s[i + 7])
  }

  predicate HasDateOrTime(s: string) {
    exists i | 0 <= i < |s| :: DateAt(s, i) || TimeAt(s, i)
  }

  function PrefixBase(s: string): Option<nat> {
    if |s| < 3 || s[0] != '0' then None
    else if s[1] == 'x' && DigitRun(s[2..], 16) then Some(16)
    else if s[1] == 'o' && DigitRun(s[2..], 8) then Some(8)
    else if s[1] == 'b' && DigitRun(s[2..], 2) then Some(2)
    else None
  }

  function Unsigned(s: string): string {
    if s != "" && (s[0] == '+' || s[0] == '-') then s[1..] else s
  }

  /** A decimal without a superfluous leading zero. */
  predicate IsDecimal(s: string) {
    s == "0" || (s != "" && '1' <= s[0] <= '9' && DigitTail(s[1..], 10))
  }

  function RunLength(s: string): (n: nat)
    ensures n <= |s|
  {
    if s == "" || !(IsDigit(s[0]) || s[0] == '_') then 0 else 1 + RunLength(s[1..])
  }

  /** An optional exponent and nothing else. */
  predicate IsExponent(s: string) {
    s == "" || ((s[0] == 'e' || s[0] == 'E') && DigitRun(Unsigned(s[1..]), 10))
  }

  predicate IsFloat(s: string) {
    var u := Unsigned(s);
    var n := RunLength(u);
    && IsDecimal(u[..n])
    && if StartsWith(u[n..], '.') then
         var f := u[n + 1..];
         DigitRun(f[..RunLength(f)], 10) && IsExponent(f[RunLength(f)..])
       else IsExponent(u[n..])
  }

  lemma {:induction false} DigitTailIsHex(s: string, base: nat)
    requires DigitTail(s, base)
    ensures AllHex(Plain(s))
  {
    if s != "" {
      if s[0] == '_' {
        DigitTailIsHex(s[2..], base);
        assert s[1..][1..] == s[2..];
        assert Plain(s) == [s[1]] + Plain(s[2..]);
      } else {
        DigitTailIsHex(s[1..], base);
      }
    }
  }

  lemma DecimalIsHex(s: string)
    requires IsDecimal(s)
    ensures AllHex(Plain(s))
  {
    if s == "0" {
      assert Plain(s[1..]) == "" && Plain(s) == "0";
    } else {
      DigitTailIsHex(s[1..], 10);
    }
  }

  function PrefixedValue(token: string): int
    requires PrefixBase(token).Some?
  {
    DigitTailIsHex(token[3..], PrefixBase(token).value);
    assert token[2..][1..] == token[3..];
    Digits(Plain(token[2..]), PrefixBase(token).value)
  }

  function DecimalValue(token: string): int
    requires IsDecimal(Unsigned(token))
  {
    DecimalIsHex(Unsigned(token));
    var n: int := Digits(Plain(Unsigned(token)), 10);
    if token[0] == '-' then -n else n
  }

  function Scalar(token: string): Result<Value, Fault> {
    if token == "true" then Ok(Bool(true))
    else if token == "false" then Ok(Bool(false))
    else if HasDateOrTime(token) then Err(Unsupported)
    else if PrefixBase(token).Some? then Ok(Int(PrefixedValue(token)))
    else if IsDecimal(Unsigned(token)) then Ok(Int(DecimalValue(token)))
    else if IsFloat(token) && ('.' in token || 'e' in token || 'E' in token) then Ok(Float(Plain(token)))
    else Err(Unsupported)
  }
}
