/**
  The texts scripts/toml_reader.py reads: TOML v1.0.0, "Keys", "String", "Array", "Inline Table", "Table" and
  "Array of Tables", as trees that keep every choice of spelling and layout.

  A tree is written in front of the text that follows it.  What is read of a written tree is what the tree means.
 */
module TomlSyntax {
  import opened Wrappers
  import opened TomlText
  import opened TomlValue
  import opened TomlDocument
  import opened TomlLoad
  import opened TomlCrash

  // ---------------------------------------------------------------------------------
  // Layout
  // ---------------------------------------------------------------------------------

  /** Spaces and tabs. */
  predicate IsPad(w: string) {
    forall i | 0 <= i < |w| :: IsSpaceOrTab(w[i])
  }

  /** Spaces, line ends and whole comments. */
  predicate IsGap(g: string)
    decreases |g|
  {
    g == "" ||
    if IsSpaceOrTab(g[0]) || IsLineEnd(g[0]) then IsGap(g[1..])
    else g[0] == '#' && ToLineFeed(g[1..]) != "" && IsGap(ToLineFeed(g[1..]))
  }

  lemma {:induction false} PadSkipped(w: string, s: string)
    requires IsPad(w)
    ensures SkipSpaces(w + s) == SkipSpaces(s)
  {
    if w == "" {
      assert w + s == s;
    } else {
      assert (w + s)[1..] == w[1..] + s;
      PadSkipped(w[1..], s);
    }
  }

  lemma {:induction false} LineFeedBefore(g: string, s: string)
    requires ToLineFeed(g) != ""
    ensures ToLineFeed(g + s) == ToLineFeed(g) + s
  {
    if g[0] != '\n' {
      assert (g + s)[1..] == g[1..] + s;
      LineFeedBefore(g[1..], s);
    }
  }

  lemma {:induction false} GapSkipped(g: string, s: string)
    requires IsGap(g)
    ensures SkipBlanks(g + s) == SkipBlanks(s)
    decreases |g|
  {
    if g == "" {
      assert g + s == s;
    } else {
      assert (g + s)[1..] == g[1..] + s;
      if g[0] == '#' {
        LineFeedBefore(g[1..], s);
        GapSkipped(ToLineFeed(g[1..]), s);
      } else {
        GapSkipped(g[1..], s);
      }
    }
  }

  /** Neither blank nor the start of a comment. */
  predicate Visible(c: char) {
    !IsSpaceOrTab(c) && !IsLineEnd(c) && c != '#'
  }

  lemma PadBefore(w: string, c: char, s: string)
    requires IsPad(w) && Visible(c)
    ensures SkipSpaces(w + ([c] + s)) == [c] + s && ([c] + s)[1..] == s
    ensures var t := w + ([c] + s); t[0] == c || IsSpaceOrTab(t[0])
  {
    PadSkipped(w, [c] + s);
  }

  lemma GapBefore(g: string, c: char, s: string)
    requires IsGap(g) && Visible(c)
    ensures SkipBlanks(g + ([c] + s)) == [c] + s && ([c] + s)[1..] == s
    ensures var t := g + ([c] + s); t[0] == c || !Visible(t[0])
  {
    GapSkipped(g, [c] + s);
  }

  lemma PadThen(w: string, s: string)
    requires IsPad(w) && s != "" && Visible(s[0])
    ensures SkipSpaces(w + s) == s && SkipBlanks(s) == s
  {
    PadSkipped(w, s);
  }

  lemma GapThen(g: string, s: string)
    requires IsGap(g) && s != "" && Visible(s[0])
    ensures SkipBlanks(g + s) == s
  {
    GapSkipped(g, s);
  }

  // ---------------------------------------------------------------------------------
  // Names
  // ---------------------------------------------------------------------------------

  /** A character of a basic string: itself, an escape letter, or the digits of its code point. */
  datatype Piece = Raw(c: char) | Named(c: char) | Coded(c: char, hex: string)

  /** The letter that escapes a character. */
  function EscapeLetter(c: char): Option<char> {
    if c == '"' then Some('"')
    else if c == '\\' then Some('\\')
    else if c == '\U{8}' then Some('b')
    else if c == '\U{c}' then Some('f')
    else if c == '\n' then Some('n')
    else if c == '\r' then Some('r')
    else if c == '\t' then Some('t')
    else None
  }

  predicate PieceFits(p: Piece) {
    match p
    case Raw(c) => c != '"' && c != '\\' && !IsLineEnd(c)
    case Named(c) => EscapeLetter(c).Some?
    case Coded(c, hex) => (|hex| == 4 || |hex| == 8) && AllHex(hex) && Digits(hex, 16) == c as int
  }

  function WritePiece(p: Piece, rest: string): string
    requires PieceFits(p)
  {
    match p
    case Raw(c) => [c] + rest
    case Named(c) => "\\" + ([EscapeLetter(c).value] + rest)
    case Coded(_, hex) => "\\" + ((if |hex| == 4 then "u" else "U") + (hex + rest))
  }

  lemma LetterIs(c: char)
    requires EscapeLetter(c).Some?
    ensures SimpleEscape(EscapeLetter(c).value) == Some(c)
  {
  }

  lemma CodeIs(hex: string, rest: string)
    requires AllHex(hex) && Digits(hex, 16) < 0x11_0000 && CodePoint(Digits(hex, 16)).Some?
    ensures UnicodeEscape(hex + rest, |hex|) == Got(Digits(hex, 16) as char, rest)
  {
    assert (hex + rest)[..|hex|] == hex && (hex + rest)[|hex|..] == rest;
  }

  lemma CharIsPoint(c: char)
    ensures CodePoint(c as int) == Some(c)
  {
  }

  lemma PieceRead(p: Piece, rest: string)
    requires PieceFits(p)
    ensures BasicBody(WritePiece(p, rest)) == Push([p.c], BasicBody(rest))
    ensures WritePiece(p, rest)[0] != '"' && |WritePiece(p, rest)| > |rest|
  {
    var s := WritePiece(p, rest);
    match p
    case Raw(c) =>
      assert s[1..] == rest;
    case Named(c) =>
      LetterIs(c);
      assert s[1..] == [EscapeLetter(c).value] + rest && s[1..][1..] == rest;
    case Coded(c, hex) =>
      CharIsPoint(c);
      CodeIs(hex, rest);
      assert s[1..][1..] == hex + rest && s[1..][0] == if |hex| == 4 then 'u' else 'U';
      assert Escape(s[1..]) == Got(c, rest);
  }

  predicate PiecesFit(ps: seq<Piece>) {
    forall i | 0 <= i < |ps| :: PieceFits(ps[i])
  }

  function TextOf(ps: seq<Piece>): (s: string)
    ensures |s| == |ps| && forall i | 0 <= i < |ps| :: s[i] == ps[i].c
  {
    seq(|ps|, i requires 0 <= i < |ps| => ps[i].c)
  }

  function WritePieces(ps: seq<Piece>, rest: string): string
    requires PiecesFit(ps)
  {
    if ps == [] then rest else WritePiece(ps[0], WritePieces(ps[1..], rest))
  }

  lemma {:induction false} PiecesRead(ps: seq<Piece>, rest: string)
    requires PiecesFit(ps)
    ensures BasicBody(WritePieces(ps, "\"" + rest)) == Got(TextOf(ps), rest)
  {
    if ps == [] {
      assert ("\"" + rest)[1..] == rest;
    } else {
      PiecesRead(ps[1..], rest);
      PieceRead(ps[0], WritePieces(ps[1..], "\"" + rest));
      assert [ps[0].c] + TextOf(ps[1..]) == TextOf(ps);
    }
  }

  /** One part of a key, or a string. */
  datatype Name = Bare(text: string) | Basic(pieces: seq<Piece>) | Literal(text: string)

  function NameText(n: Name): string {
    match n
    case Bare(text) => text
    case Basic(pieces) => TextOf(pieces)
    case Literal(text) => text
  }

  predicate NameFits(n: Name) {
    match n
    case Bare(text) => text != "" && forall i | 0 <= i < |text| :: IsBare(text[i])
    case Basic(pieces) => PiecesFit(pieces)
    case Literal(text) => forall i | 0 <= i < |text| :: text[i] != '\'' && !IsLineEnd(text[i])
  }

  function WriteName(n: Name, rest: string): string
    requires NameFits(n)
  {
    match n
    case Bare(text) => text + rest
    case Basic(pieces) => "\"" + WritePieces(pieces, "\"" + rest)
    case Literal(text) => "'" + (text + ("'" + rest))
  }

  /** What must not follow a name: a bare character after a bare one, a quote after an empty string. */
  predicate EndsName(n: Name, rest: string) {
    rest == "" ||
    match n
    case Bare(_) => !IsBare(rest[0])
    case Basic(pieces) => pieces != [] || rest[0] != '"'
    case Literal(text) => text != "" || rest[0] != '\''
  }

  lemma {:induction false} BareLengthOf(text: string, rest: string)
    requires (forall i | 0 <= i < |text| :: IsBare(text[i])) && (rest == "" || !IsBare(rest[0]))
    ensures BareLength(text + rest) == |text| && (text + rest)[..|text|] == text && (text + rest)[|text|..] == rest
  {
    if text == "" {
      assert text + rest == rest;
    } else {
      assert (text + rest)[1..] == text[1..] + rest;
      BareLengthOf(text[1..], rest);
    }
  }

  lemma {:induction false} LiteralOf(text: string, rest: string)
    requires forall i | 0 <= i < |text| :: text[i] != '\'' && !IsLineEnd(text[i])
    ensures LiteralBody(text + ("'" + rest)) == Got(text, rest)
  {
    var s := text + ("'" + rest);
    if text == "" {
      assert s == "'" + rest && s[1..] == rest;
    } else {
      assert s[1..] == text[1..] + ("'" + rest);
      LiteralOf(text[1..], rest);
      assert [text[0]] + text[1..] == text;
    }
  }

  /** Every bare key, before anything but another bare character, is read whole. */
  lemma BareRead(text: string, rest: string)
    requires text != "" && (forall i | 0 <= i < |text| :: IsBare(text[i])) && (rest == "" || !IsBare(rest[0]))
    ensures KeySegment(text + rest) == Got(text, rest)
  {
    assert (text + rest)[0] == text[0];
    BareLengthOf(text, rest);
  }

  lemma BasicRead(ps: seq<Piece>, rest: string)
    requires PiecesFit(ps) && EndsName(Basic(ps), rest)
    ensures BasicString(WriteName(Basic(ps), rest)) == Got(TextOf(ps), rest)
  {
    var body := WritePieces(ps, "\"" + rest);
    var s := "\"" + body;
    assert s[1..] == body;
    PiecesRead(ps, rest);
    if ps == [] {
      assert rest != "" ==> s[2] == rest[0];
    } else {
      PieceRead(ps[0], WritePieces(ps[1..], "\"" + rest));
      assert s[1] == body[0];
    }
  }

  lemma LiteralRead(text: string, rest: string)
    requires NameFits(Literal(text)) && EndsName(Literal(text), rest)
    ensures LiteralString(WriteName(Literal(text), rest)) == Got(text, rest)
  {
    var s := "'" + (text + ("'" + rest));
    assert s[1..] == text + ("'" + rest);
    LiteralOf(text, rest);
    if text == "" {
      assert rest != "" ==> s[2] == rest[0];
    } else {
      assert s[1] == text[0];
    }
  }

  lemma NameRead(n: Name, rest: string)
    requires NameFits(n) && EndsName(n, rest)
    ensures KeySegment(WriteName(n, rest)) == Got(NameText(n), rest)
  {
    match n
    case Bare(text) => BareRead(text, rest);
    case Basic(pieces) => BasicRead(pieces, rest);
    case Literal(text) => LiteralRead(text, rest);
  }

  lemma NameStarts(n: Name, rest: string)
    requires NameFits(n)
    ensures var s := WriteName(n, rest); s != "" && Visible(s[0]) && s[0] != '[' && s[0] != ']' && s[0] != '}'
  {
  }

  // ---------------------------------------------------------------------------------
  // Dotted keys
  // ---------------------------------------------------------------------------------

  datatype Dotted = One(name: Name) | Dot(name: Name, before: string, after: string, more: Dotted)

  function Parts(d: Dotted): (path: seq<string>)
    ensures path != []
  {
    match d
    case One(name) => [NameText(name)]
    case Dot(name, _, _, more) => [NameText(name)] + Parts(more)
  }

  predicate DottedFits(d: Dotted) {
    match d
    case One(name) => NameFits(name)
    case Dot(name, before, after, more) => NameFits(name) && IsPad(before) && IsPad(after) && DottedFits(more)
  }

  function WriteDotted(d: Dotted, rest: string): string
    requires DottedFits(d)
  {
    match d
    case One(name) => WriteName(name, rest)
    case Dot(name, before, after, more) => WriteName(name, before + ("." + (after + WriteDotted(more, rest))))
  }

  lemma DottedStarts(d: Dotted, rest: string)
    requires DottedFits(d)
    ensures var s := WriteDotted(d, rest); s != "" && Visible(s[0]) && s[0] != '[' && s[0] != ']' && s[0] != '}'
  {
    match d
    case One(name) => NameStarts(name, rest);
    case Dot(name, before, after, more) => NameStarts(name, before + ("." + (after + WriteDotted(more, rest))));
  }

  /** A dotted key before an equals sign or a bracket, spaces allowed, is read as its parts in order. */
  lemma {:induction false} DottedRead(d: Dotted, pad: string, c: char, rest: string)
    requires DottedFits(d) && IsPad(pad) && (c == '=' || c == ']')
    ensures KeyPath(WriteDotted(d, pad + ([c] + rest))) == Got(Parts(d), [c] + rest)
  {
    var tail := pad + ([c] + rest);
    PadBefore(pad, c, rest);
    match d
    case One(name) =>
      NameRead(name, tail);
    case Dot(name, before, after, more) =>
      var next := WriteDotted(more, tail);
      PadBefore(before, '.', after + next);
      NameRead(name, before + ("." + (after + next)));
      DottedStarts(more, tail);
      PadThen(after, next);
      DottedRead(more, pad, c, rest);
  }

  // ---------------------------------------------------------------------------------
  // Values
  // ---------------------------------------------------------------------------------

  /** A value: a scalar token, a string, an array, or an inline table. */
  datatype Node =
    | Token(token: string)
    | Quote(name: Name)
    | List(items: Items)
    | Empty(pad: string)
    | Inline(pairs: Pairs)

  /** What follows the opening bracket; a comma may come before the closing one. */
  datatype Items =
    | NoItem(gap: string)
    | LastItem(gap: string, node: Node, after: string)
    | Item(gap: string, node: Node, after: string, more: Items)

  /** What follows the opening brace. */
  datatype Pairs =
    | LastPair(pad: string, key: Dotted, before: string, after: string, node: Node, end: string)
    | Pair(pad: string, key: Dotted, before: string, after: string, node: Node, end: string, more: Pairs)

  predicate TokenFits(token: string) {
    && token != "" && token[0] != '"' && token[0] != '\'' && token[0] != '[' && token[0] != '{'
    && forall i | 0 <= i < |token| :: !EndsToken(token[i])
  }

  predicate NodeFits(n: Node) {
    match n
    case Token(token) => TokenFits(token)
    case Quote(name) => !name.Bare? && NameFits(name)
    case List(items) => ItemsFit(items)
    case Empty(pad) => IsPad(pad)
    case Inline(pairs) => PairsFit(pairs)
  }

  predicate ItemsFit(items: Items) {
    match items
    case NoItem(gap) => IsGap(gap)
    case LastItem(gap, node, after) => IsGap(gap) && NodeFits(node) && IsGap(after)
    case Item(gap, node, after, more) => IsGap(gap) && NodeFits(node) && IsGap(after) && ItemsFit(more)
  }

  predicate PairsFit(pairs: Pairs) {
    && IsPad(pairs.pad) && DottedFits(pairs.key) && IsPad(pairs.before) && IsPad(pairs.after)
    && NodeFits(pairs.node) && IsPad(pairs.end) && (pairs.Pair? ==> PairsFit(pairs.more))
  }

  function WriteNode(n: Node, rest: string): string
    requires NodeFits(n)
    decreases n, 0
  {
    match n
    case Token(token) => token + rest
    case Quote(name) => WriteName(name, rest)
    case List(items) => "[" + WriteItems(items, rest)
    case Empty(pad) => "{" + (pad + ("}" + rest))
    case Inline(pairs) => "{" + WritePairs(pairs, rest)
  }

  function WriteItems(items: Items, rest: string): string
    requires ItemsFit(items)
    decreases items, 0
  {
    match items
    case NoItem(gap) => gap + ("]" + rest)
    case LastItem(gap, node, after) => gap + WriteNode(node, after + ("]" + rest))
    case Item(gap, node, after, more) => gap + WriteNode(node, after + ("," + WriteItems(more, rest)))
  }

  function WriteBinding(key: Dotted, before: string, after: string, node: Node, rest: string): string
    requires DottedFits(key) && NodeFits(node)
    decreases node, 1
  {
    WriteDotted(key, before + ("=" + (after + WriteNode(node, rest))))
  }

  function WritePairs(pairs: Pairs, rest: string): string
    requires PairsFit(pairs)
    decreases pairs, 0
  {
    pairs.pad + WriteBinding(pairs.key, pairs.before, pairs.after, pairs.node,
                             pairs.end + (if pairs.LastPair? then "}" + rest else "," + WritePairs(pairs.more, rest)))
  }

  function Listed(r: Result<seq<Value>, Fault>): Result<Value, Fault> {
    match r
    case Err(f) => Err(f)
    case Ok(vs) => Ok(Array(vs))
  }

  /** What a tree means: the value, or the fault of its first scalar or key that has none. */
  function Meaning(n: Node): (r: Result<Value, Fault>)
    ensures r.Ok? ==> WellFormed(r.value)
  {
    match n
    case Token(token) => Scalar(token)
    case Quote(name) => Ok(Str(NameText(name)))
    case List(items) => Listed(ItemsMean(items))
    case Empty(_) => Ok(Table([], []))
    case Inline(pairs) => PairsMean(pairs, Table([], []))
  }

  function ItemsMean(items: Items): (r: Result<seq<Value>, Fault>)
    ensures r.Ok? ==> AllWellFormed(r.value)
  {
    match items
    case NoItem(_) => Ok([])
    case LastItem(_, node, _) => (match Meaning(node) case Err(f) => Err(f) case Ok(v) => Ok([v]))
    case Item(_, node, _, more) =>
      match Meaning(node)
      case Err(f) => Err(f)
      case Ok(v) => match ItemsMean(more) case Err(f) => Err(f) case Ok(vs) => Ok([v] + vs)
  }

  function PairsMean(pairs: Pairs, table: Value): (r: Result<Value, Fault>)
    requires table.Table? && WellFormed(table)
    ensures r.Ok? ==> r.value.Table? && WellFormed(r.value)
    decreases pairs
  {
    match Meaning(pairs.node)
    case Err(f) => Err(f)
    case Ok(v) =>
      match Assign(table, Parts(pairs.key), v)
      case Err(f) => Err(f)
      case Ok(more) => if pairs.LastPair? then Ok(more) else PairsMean(pairs.more, more)
  }

  // ---------------------------------------------------------------------------------
  // Values are read as they mean
  // ---------------------------------------------------------------------------------

  /** The end of the text or a character that ends a scalar token. */
  predicate Delimited(rest: string) {
    rest == "" || EndsToken(rest[0])
  }

  /** A reading that ends where the tree does. */
  function Given<T>(r: Result<T, Fault>, rest: string): Read<T> {
    match r
    case Err(f) => Fail(f)
    case Ok(v) => Got(v, rest)
  }

  lemma TokenOf(token: string, rest: string)
    requires token != "" && Delimited(rest)
    requires forall i | 0 <= i < |token| :: !EndsToken(token[i])
    ensures TokenLength(token + rest) == |token|
    ensures (token + rest)[..|token|] == token && (token + rest)[|token|..] == rest
  {
    var s := token + rest;
    assert forall i | 0 <= i < |token| :: s[i] == token[i];
    assert rest != "" ==> s[|token|] == rest[0];
  }

  lemma TokenRead(token: string, rest: string)
    requires TokenFits(token) && Delimited(rest)
    ensures ReadValue(token + rest) == Given(Scalar(token), rest)
  {
    TokenOf(token, rest);
    assert (token + rest)[0] == token[0];
  }

  lemma QuoteRead(name: Name, rest: string)
    requires !name.Bare? && NameFits(name) && Delimited(rest)
    ensures ReadValue(WriteName(name, rest)) == Got(Str(NameText(name)), rest)
  {
    match name
    case Basic(pieces) => BasicRead(pieces, rest);
    case Literal(text) => LiteralRead(text, rest);
  }

  lemma NodeStarts(n: Node, rest: string)
    requires NodeFits(n)
    ensures var s := WriteNode(n, rest); s != "" && Visible(s[0]) && s[0] != ']' && s[0] != '}'
  {
    match n
    case Token(token) => assert (token + rest)[0] == token[0];
    case Quote(name) => NameStarts(name, rest);
    case _ =>
  }

  lemma GapIsDelimited(g: string, c: char, rest: string)
    requires IsGap(g) && (c == ',' || c == ']' || c == '}')
    ensures Delimited(g + ([c] + rest))
  {
    GapBefore(g, c, rest);
  }

  lemma {:induction false} PadIsGap(w: string)
    requires IsPad(w)
    ensures IsGap(w)
  {
    if w != "" { PadIsGap(w[1..]); }
  }

  lemma ListRead(inside: string, r: Result<seq<Value>, Fault>, rest: string)
    requires ReadItems(inside) == Given(r, rest)
    ensures ReadValue("[" + inside) == Given(Listed(r), rest)
  {
    assert ("[" + inside)[1..] == inside;
  }

  lemma EmptyRead(pad: string, rest: string)
    requires IsPad(pad)
    ensures ReadValue("{" + (pad + ("}" + rest))) == Got(Table([], []), rest)
  {
    var s := "{" + (pad + ("}" + rest));
    assert s[1..] == pad + ("}" + rest);
    PadBefore(pad, '}', rest);
  }

  lemma InlineRead(inside: string, r: Result<Value, Fault>, rest: string)
    requires !StartsWith(SkipSpaces(inside), '}') && ReadPairs(SkipSpaces(inside), Table([], [])) == Given(r, rest)
    ensures ReadValue("{" + inside) == Given(r, rest)
  {
    BraceRead("{" + inside, inside, r, rest);
  }

  lemma BraceRead(s: string, inside: string, r: Result<Value, Fault>, rest: string)
    requires s == "{" + inside && !StartsWith(SkipSpaces(inside), '}')
    requires ReadPairs(SkipSpaces(inside), Table([], [])) == Given(r, rest)
    ensures ReadValue(s) == Given(r, rest)
  {
    assert s[0] == '{' && s[1..] == inside;
  }

  function AfterItem(r: Result<Value, Fault>, c: char, rest: string): Read<seq<Value>> {
    match r
    case Err(f) => Fail(f)
    case Ok(v) => if c == ']' then Got([v], rest) else PushItem(v, ReadItems(rest))
  }

  function AfterPair(table: Value, r: Result<(seq<string>, Value), Fault>, c: char, rest: string): Read<Value>
    requires table.Table? && WellFormed(table) && (r.Ok? ==> r.value.0 != [] && WellFormed(r.value.1))
  {
    match r
    case Err(f) => Fail(f)
    case Ok(b) =>
      match Assign(table, b.0, b.1)
      case Err(f) => Fail(f)
      case Ok(more) => if c == '}' then Got(more, rest) else ReadPairs(rest, more)
  }

  /** One item, and what the next character says. */
  lemma ItemRead(s: string, gap: string, node: string, r: Result<Value, Fault>, after: string, c: char, rest: string)
    requires s == gap + node && IsGap(gap) && node != "" && Visible(node[0]) && node[0] != ']'
    requires IsGap(after) && (c == ',' || c == ']') && ReadValue(node) == Given(r, after + ([c] + rest))
    ensures ReadItems(s) == AfterItem(r, c, rest)
  {
    GapThen(gap, node);
    GapBefore(after, c, rest);
  }

  lemma PairRead(s: string, table: Value, pad: string, binding: string, r: Result<(seq<string>, Value), Fault>,
                 end: string, c: char, rest: string)
    requires table.Table? && WellFormed(table) && (r.Ok? ==> r.value.0 != [] && WellFormed(r.value.1))
    requires s == pad + binding && IsPad(pad) && binding != "" && Visible(binding[0])
    requires IsPad(end) && (c == ',' || c == '}') && ReadBinding(binding) == Given(r, end + ([c] + rest))
    ensures ReadPairs(s, table) == AfterPair(table, r, c, rest)
  {
    PadThen(pad, binding);
    PadBefore(end, c, rest);
  }

  lemma SkippedPairs(s: string, table: Value)
    requires table.Table? && WellFormed(table)
    ensures ReadPairs(SkipSpaces(s), table) == ReadPairs(s, table)
  {
    SkipTwice(s);
  }

  lemma {:induction false} SkipTwice(s: string)
    ensures SkipSpaces(SkipSpaces(s)) == SkipSpaces(s)
  {
  }

  /** What a binding reads as: its key's parts with the value. */
  function Bound(key: Dotted, r: Result<Value, Fault>): Result<(seq<string>, Value), Fault> {
    match r
    case Err(f) => Err(f)
    case Ok(v) => Ok((Parts(key), v))
  }

  lemma BindingRead(key: Dotted, before: string, after: string, node: Node, rest: string)
    requires DottedFits(key) && IsPad(before) && IsPad(after) && NodeFits(node)
    requires ReadValue(WriteNode(node, rest)) == Given(Meaning(node), rest)
    ensures var s := WriteBinding(key, before, after, node, rest);
            ReadBinding(s) == Given(Bound(key, Meaning(node)), rest) && s != "" && Visible(s[0]) && s[0] != '[' && s[0] != '}'
  {
    var value := WriteNode(node, rest);
    NodeStarts(node, rest);
    DottedStarts(key, before + ("=" + (after + value)));
    DottedRead(key, before, '=', after + value);
    assert SkipSpaces("=" + (after + value)) == "=" + (after + value);
    assert ("=" + (after + value))[1..] == after + value;
    PadThen(after, value);
  }

  /** Every tree of a value, before any delimiter, is read as what it means, and up to its end. */
  lemma {:induction false} NodeRead(n: Node, rest: string)
    requires NodeFits(n) && Delimited(rest)
    ensures ReadValue(WriteNode(n, rest)) == Given(Meaning(n), rest)
    decreases n, 0
  {
    match n
    case Token(token) => TokenRead(token, rest);
    case Quote(name) => QuoteRead(name, rest);
    case List(items) =>
      ItemsRead(items, rest);
      ListRead(WriteItems(items, rest), ItemsMean(items), rest);
    case Empty(pad) => EmptyRead(pad, rest);
    case Inline(pairs) =>
      PairsRead(pairs, Table([], []), rest);
      PairsStart(pairs, rest);
      SkippedPairs(WritePairs(pairs, rest), Table([], []));
      InlineRead(WritePairs(pairs, rest), PairsMean(pairs, Table([], [])), rest);
  }

  lemma PairsStart(pairs: Pairs, rest: string)
    requires PairsFit(pairs)
    ensures !StartsWith(SkipSpaces(WritePairs(pairs, rest)), '}')
  {
    var tail := pairs.end + (if pairs.LastPair? then "}" + rest else "," + WritePairs(pairs.more, rest));
    var key := WriteBinding(pairs.key, pairs.before, pairs.after, pairs.node, tail);
    DottedStarts(pairs.key, pairs.before + ("=" + (pairs.after + WriteNode(pairs.node, tail))));
    PadThen(pairs.pad, key);
  }

  lemma {:induction false} ItemsRead(items: Items, rest: string)
    requires ItemsFit(items)
    ensures ReadItems(WriteItems(items, rest)) == Given(ItemsMean(items), rest)
    decreases items, 0
  {
    match items
    case NoItem(gap) =>
      GapBefore(gap, ']', rest);
    case LastItem(gap, node, after) =>
      var tail := after + ("]" + rest);
      GapIsDelimited(after, ']', rest);
      NodeRead(node, tail);
      NodeStarts(node, tail);
      ItemRead(WriteItems(items, rest), gap, WriteNode(node, tail), Meaning(node), after, ']', rest);
    case Item(gap, node, after, more) =>
      var next := WriteItems(more, rest);
      var tail := after + ("," + next);
      GapIsDelimited(after, ',', next);
      NodeRead(node, tail);
      NodeStarts(node, tail);
      ItemsRead(more, rest);
      ItemRead(WriteItems(items, rest), gap, WriteNode(node, tail), Meaning(node), after, ',', next);
  }

  lemma {:induction false} PairsRead(pairs: Pairs, table: Value, rest: string)
    requires PairsFit(pairs) && table.Table? && WellFormed(table)
    ensures ReadPairs(WritePairs(pairs, rest), table) == Given(PairsMean(pairs, table), rest)
    decreases pairs, 0
  {
    var c, next := if pairs.LastPair? then '}' else ',', if pairs.LastPair? then rest else WritePairs(pairs.more, rest);
    var tail := pairs.end + ([c] + next);
    assert WritePairs(pairs, rest) == pairs.pad + WriteBinding(pairs.key, pairs.before, pairs.after, pairs.node, tail);
    PadIsGap(pairs.end);
    GapIsDelimited(pairs.end, c, next);
    NodeRead(pairs.node, tail);
    BindingRead(pairs.key, pairs.before, pairs.after, pairs.node, tail);
    PairRead(WritePairs(pairs, rest), table, pairs.pad, WriteBinding(pairs.key, pairs.before, pairs.after, pairs.node, tail),
             Bound(pairs.key, Meaning(pairs.node)), pairs.end, c, next);
    if pairs.Pair? && Meaning(pairs.node).Ok? && Assign(table, Parts(pairs.key), Meaning(pairs.node).value).Ok? {
      PairsRead(pairs.more, Assign(table, Parts(pairs.key), Meaning(pairs.node).value).value, rest);
    }
  }

  // ---------------------------------------------------------------------------------
  // Statements and texts
  // ---------------------------------------------------------------------------------

  datatype Line =
    | Binding(key: Dotted, before: string, after: string, node: Node)
    | Head(isArray: bool, pad: string, key: Dotted, end: string)

  predicate LineFits(line: Line) {
    match line
    case Binding(key, before, after, node) => DottedFits(key) && IsPad(before) && IsPad(after) && NodeFits(node)
    case Head(_, pad, key, end) => IsPad(pad) && DottedFits(key) && IsPad(end)
  }

  function WriteLine(line: Line, rest: string): string
    requires LineFits(line)
  {
    match line
    case Binding(key, before, after, node) => WriteBinding(key, before, after, node, rest)
    case Head(true, pad, key, end) => "[" + ("[" + (pad + WriteDotted(key, end + ("]" + ("]" + rest)))))
    case Head(false, pad, key, end) => "[" + (pad + WriteDotted(key, end + ("]" + rest)))
  }

  function LineMeans(line: Line): Result<Stmt, Fault> {
    match line
    case Binding(key, _, _, node) =>
      (match Meaning(node)
       case Err(f) => Err(f)
       case Ok(v) => Ok(KeyValue(Parts(key), v)))
    case Head(isArray, _, key, _) => Ok(Header(Parts(key), isArray))
  }

  lemma LineStarts(line: Line, rest: string)
    requires LineFits(line)
    ensures var s := WriteLine(line, rest); s != "" && Visible(s[0])
  {
    if line.Binding? {
      DottedStarts(line.key, line.before + ("=" + (line.after + WriteNode(line.node, rest))));
    }
  }

  lemma HeaderFrom(s: string, isArray: bool, inside: string, path: seq<string>, close: string, rest: string)
    requires StartsWith(s, '[') && isArray == ("[[" <= s) && inside == (if isArray then s[2..] else s[1..])
    requires path != [] && KeyPath(SkipSpaces(inside)) == Got(path, close) && StartsWith(close, ']')
    requires isArray ==> "]]" <= close
    requires rest == if isArray then close[2..] else close[1..]
    ensures ReadStmt(s) == Got(Header(path, isArray), rest)
  {
    assert SkipSpaces(close) == close;
  }

  lemma TwoCharacters(c: char, s: string)
    ensures var t := [c] + ([c] + s); [c, c] <= t && t[0] == c && t[2..] == s
  {
  }

  lemma TableHead(inside: string, path: seq<string>, rest: string)
    requires path != [] && KeyPath(SkipSpaces(inside)) == Got(path, "]" + rest) && inside != "" && inside[0] != '['
    ensures ReadStmt("[" + inside) == Got(Header(path, false), rest)
  {
    var s := "[" + inside;
    assert s[1..] == inside && s[1] == inside[0] && ("]" + rest)[1..] == rest;
    HeaderFrom(s, false, inside, path, "]" + rest, rest);
  }

  lemma ArrayHead(inside: string, path: seq<string>, rest: string)
    requires path != [] && KeyPath(SkipSpaces(inside)) == Got(path, "]" + ("]" + rest))
    ensures ReadStmt("[" + ("[" + inside)) == Got(Header(path, true), rest)
  {
    TwoCharacters('[', inside);
    TwoCharacters(']', rest);
    HeaderFrom("[" + ("[" + inside), true, inside, path, "]" + ("]" + rest), rest);
  }

  lemma HeadRead(line: Line, rest: string)
    requires LineFits(line) && line.Head?
    ensures ReadStmt(WriteLine(line, rest)) == Got(Header(Parts(line.key), line.isArray), rest)
  {
    var close := if line.isArray then "]" + rest else rest;
    var path := WriteDotted(line.key, line.end + ("]" + close));
    DottedStarts(line.key, line.end + ("]" + close));
    DottedRead(line.key, line.end, ']', close);
    PadThen(line.pad, path);
    if line.isArray {
      ArrayHead(line.pad + path, Parts(line.key), rest);
    } else {
      TableHead(line.pad + path, Parts(line.key), rest);
    }
  }

  /** Every statement, before the end of its line, is read as what it means. */
  lemma LineRead(line: Line, rest: string)
    requires LineFits(line) && Delimited(rest)
    ensures ReadStmt(WriteLine(line, rest)) == Given(LineMeans(line), rest)
  {
    if line.Head? {
      HeadRead(line, rest);
    } else {
      NodeRead(line.node, rest);
      BindingRead(line.key, line.before, line.after, line.node, rest);
    }
  }

  /** The rest of a line: spaces and an optional comment. */
  datatype Margin = Margin(pad: string, comment: Option<string>)

  predicate MarginFits(m: Margin) {
    IsPad(m.pad) && (m.comment.Some? ==> '\n' !in m.comment.value)
  }

  function WriteMargin(m: Margin, rest: string): string {
    m.pad + (if m.comment.Some? then "#" + (m.comment.value + rest) else rest)
  }

  /** A document: statements on lines, with blank lines and comments between them. */
  datatype Text =
    | Done(gap: string, margin: Margin)
    | Last(gap: string, line: Line, margin: Margin)
    | More(gap: string, line: Line, margin: Margin, end: char, more: Text)

  predicate TextFits(t: Text) {
    && IsGap(t.gap) && MarginFits(t.margin)
    && (!t.Done? ==> LineFits(t.line))
    && (t.More? ==> (t.end == '\n' || (t.end == '\r' && t.margin.comment.None?)) && TextFits(t.more))
  }

  function WriteText(t: Text): string
    requires TextFits(t)
  {
    match t
    case Done(gap, margin) => gap + WriteMargin(margin, "")
    case Last(gap, line, margin) => gap + WriteLine(line, WriteMargin(margin, ""))
    case More(gap, line, margin, end, more) => gap + WriteLine(line, WriteMargin(margin, [end] + WriteText(more)))
  }

  /** A statement before the others, or its fault. */
  function Before(r: Result<Stmt, Fault>, more: Reading): Reading {
    match r
    case Err(f) => Reading([], Some(f))
    case Ok(stmt) => Reading([stmt] + more.stmts, more.fault)
  }

  function Contents(t: Text): Reading {
    match t
    case Done(_, _) => Reading([], None)
    case Last(_, line, _) =>
      Before(LineMeans(line), Reading([], None))
    case More(_, line, _, _, more) =>
      Before(LineMeans(line), Contents(more))
  }

  lemma {:induction false} NoLineFeed(c: string, rest: string)
    requires '\n' !in c && (rest == "" || rest[0] == '\n')
    ensures ToLineFeed(c + rest) == rest
  {
    if c == "" {
      assert c + rest == rest;
    } else {
      assert c[0] in c && (c + rest)[1..] == c[1..] + rest;
      NoLineFeed(c[1..], rest);
    }
  }

  /** A margin ends a statement, and nothing of it is left. */
  lemma MarginEnds(m: Margin, rest: string)
    requires MarginFits(m) && (rest == "" || IsLineEnd(rest[0])) && (m.comment.Some? && rest != "" ==> rest[0] == '\n')
    ensures EndOfStatement(WriteMargin(m, rest)) == Got((), if rest == "" then "" else rest[1..])
    ensures Delimited(WriteMargin(m, rest))
  {
    var s := if m.comment.Some? then "#" + (m.comment.value + rest) else rest;
    PadSkipped(m.pad, s);
    assert SkipSpaces(s) == s;
    if m.comment.Some? {
      assert s[1..] == m.comment.value + rest;
      NoLineFeed(m.comment.value, rest);
    }
    if m.pad != "" { assert (m.pad + s)[0] == m.pad[0]; } else { assert m.pad + s == s; }
  }

  lemma {:induction false} DoneIsBlank(gap: string, m: Margin)
    requires IsGap(gap) && MarginFits(m)
    ensures SkipBlanks(gap + WriteMargin(m, "")) == ""
  {
    var s := if m.comment.Some? then "#" + (m.comment.value + "") else "";
    GapSkipped(gap, m.pad + s);
    PadIsGap(m.pad);
    GapSkipped(m.pad, s);
    if m.comment.Some? {
      assert s[1..] == m.comment.value + "";
      NoLineFeed(m.comment.value, "");
    }
  }

  lemma OneStatement(s: string, gap: string, line: Line, margin: Margin, rest: string)
    requires LineFits(line) && IsGap(gap) && MarginFits(margin) && s == gap + WriteLine(line, WriteMargin(margin, rest))
    requires (rest == "" || IsLineEnd(rest[0])) && (margin.comment.Some? && rest != "" ==> rest[0] == '\n')
    ensures Statements(s) == Before(LineMeans(line), Statements(if rest == "" then "" else rest[1..]))
  {
    var tail := WriteMargin(margin, rest);
    MarginEnds(margin, rest);
    LineRead(line, tail);
    LineStarts(line, tail);
    GapThen(gap, WriteLine(line, tail));
  }

  /**
    Every document, in any spelling and layout, is read as the list of its statements, in order, up to the first
    that has no meaning.
   */
  lemma {:induction false} TextRead(t: Text)
    requires TextFits(t)
    ensures Statements(WriteText(t)) == Contents(t)
  {
    match t
    case Done(gap, margin) =>
      DoneIsBlank(gap, margin);
    case Last(gap, line, margin) =>
      OneStatement(WriteText(t), gap, line, margin, "");
      assert Statements("") == Reading([], None);
    case More(gap, line, margin, end, more) =>
      TextRead(more);
      assert ([end] + WriteText(more))[1..] == WriteText(more);
      OneStatement(WriteText(t), gap, line, margin, [end] + WriteText(more));
  }
}
