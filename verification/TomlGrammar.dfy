/**
  The converse of `TomlSyntax`: whatever scripts/toml_reader.py reads is a written tree.  Every reading that
  succeeds names the tree it read, with its spelling and layout, so a text is accepted exactly when some tree
  that has a meaning is written like it.
 */
module TomlGrammar {
  import opened Wrappers
  import opened TomlText
  import opened TomlValue
  import opened TomlDocument
  import opened TomlLoad
  import opened TomlCrash
  import opened TomlSyntax

  // ---------------------------------------------------------------------------------
  // Layout
  // ---------------------------------------------------------------------------------

  lemma {:induction false} PadFrom(s: string) returns (w: string)
    ensures IsPad(w) && s == w + SkipSpaces(s)
  {
    if s != "" && IsSpaceOrTab(s[0]) {
      w := PadFrom(s[1..]);
      w := [s[0]] + w;
    } else {
      w := "";
      assert s == "" + s;
    }
  }

  /** The part of a line before its line feed. */
  lemma {:induction false} LineFrom(s: string) returns (c: string)
    ensures '\n' !in c && s == c + ToLineFeed(s)
  {
    if s == "" || s[0] == '\n' {
      c := "";
      assert s == "" + s;
    } else {
      c := LineFrom(s[1..]);
      c := [s[0]] + c;
    }
  }

  lemma {:induction false} GapFrom(s: string) returns (g: string)
    requires SkipBlanks(s) != ""
    ensures IsGap(g) && s == g + SkipBlanks(s)
    decreases |s|
  {
    if IsSpaceOrTab(s[0]) || IsLineEnd(s[0]) {
      var more := GapFrom(s[1..]);
      g := [s[0]] + more;
      assert g[1..] == more;
    } else if s[0] == '#' {
      var c := LineFrom(s[1..]);
      var next := ToLineFeed(s[1..]);
      var more := GapFrom(next);
      g := CommentGap(c, more, next);
      assert s == "#" + (c + next);
    } else {
      g := "";
      assert s == "" + s;
    }
  }

  lemma CommentGap(c: string, more: string, next: string) returns (g: string)
    requires '\n' !in c && IsGap(more) && next != "" && next[0] == '\n' && next == more + SkipBlanks(next)
    ensures IsGap(g) && "#" + (c + next) == g + SkipBlanks(next)
  {
    assert more != "" by {
      assert next != SkipBlanks(next) && "" + SkipBlanks(next) == SkipBlanks(next);
    }
    assert more[0] == next[0];
    g := "#" + (c + more);
    assert g[1..] == c + more;
    NoLineFeed(c, more);
    assert "#" + (c + (more + SkipBlanks(next))) == "#" + (c + more) + SkipBlanks(next);
  }

  /** What is left when nothing is: a gap, and perhaps a comment that no line feed ends. */
  lemma {:induction false} BlankFrom(s: string) returns (g: string, m: Margin)
    requires SkipBlanks(s) == ""
    ensures IsGap(g) && MarginFits(m) && s == g + WriteMargin(m, "")
    decreases |s|
  {
    if s == "" {
      g, m := "", Margin("", None);
      assert "" + WriteMargin(m, "") == "";
    } else if s[0] != '#' {
      var more;
      more, m := BlankFrom(s[1..]);
      g := [s[0]] + more;
      assert g[1..] == more;
    } else {
      var c := LineFrom(s[1..]);
      var next := ToLineFeed(s[1..]);
      if next == "" {
        g, m := "", Margin("", Some(c));
        assert WriteMargin(m, "") == "#" + c && c + next == c;
      } else {
        var more;
        more, m := BlankFrom(next);
        g := FeedGap(c, more, next, m);
        assert s == "#" + (c + next);
      }
    }
  }

  lemma MarginStarts(m: Margin)
    requires MarginFits(m)
    ensures WriteMargin(m, "") == "" || WriteMargin(m, "")[0] != '\n'
  {
    if m.pad != "" { assert WriteMargin(m, "")[0] == m.pad[0]; }
  }

  lemma FeedGap(c: string, more: string, next: string, m: Margin) returns (g: string)
    requires '\n' !in c && IsGap(more) && MarginFits(m) && next != "" && next[0] == '\n' && next == more + WriteMargin(m, "")
    ensures IsGap(g) && "#" + (c + next) == g + WriteMargin(m, "")
  {
    assert more != "" by {
      MarginStarts(m);
      assert "" + WriteMargin(m, "") == WriteMargin(m, "");
    }
    assert more[0] == next[0];
    g := "#" + (c + more);
    assert g[1..] == c + more;
    NoLineFeed(c, more);
    assert "#" + (c + (more + WriteMargin(m, ""))) == "#" + (c + more) + WriteMargin(m, "");
  }

  // ---------------------------------------------------------------------------------
  // Names
  // ---------------------------------------------------------------------------------

  lemma LetterFrom(letter: char)
    requires SimpleEscape(letter).Some?
    ensures EscapeLetter(SimpleEscape(letter).value) == Some(letter)
  {
  }

  lemma CodeFrom(s: string, width: nat, letter: string) returns (p: Piece)
    requires UnicodeEscape(s, width).Got? && ((width == 4 && letter == "u") || (width == 8 && letter == "U"))
    ensures PieceFits(p) && p.c == UnicodeEscape(s, width).value
    ensures "\\" + (letter + s) == WritePiece(p, UnicodeEscape(s, width).rest)
  {
    var hex := s[..width];
    p := Coded(CodePoint(Digits(hex, 16)).value, hex);
    assert s == hex + s[width..];
  }

  lemma PieceFrom(s: string) returns (p: Piece)
    requires Escape(s).Got?
    ensures PieceFits(p) && p.c == Escape(s).value && "\\" + s == WritePiece(p, Escape(s).rest)
  {
    if SimpleEscape(s[0]).Some? {
      LetterFrom(s[0]);
      p := Named(SimpleEscape(s[0]).value);
      assert s == [s[0]] + s[1..];
    } else if s[0] == 'u' {
      p := CodeFrom(s[1..], 4, "u");
      assert s == "u" + s[1..];
    } else {
      p := CodeFrom(s[1..], 8, "U");
      assert s == "U" + s[1..];
    }
  }

  lemma {:induction false} PiecesFrom(s: string) returns (ps: seq<Piece>)
    requires BasicBody(s).Got?
    ensures PiecesFit(ps) && TextOf(ps) == BasicBody(s).value && s == WritePieces(ps, "\"" + BasicBody(s).rest)
    decreases |s|
  {
    if s[0] == '"' {
      ps := [];
      assert s == "\"" + s[1..];
    } else {
      var p, next := PieceSplit(s);
      var more := PiecesFrom(next);
      ps := [p] + more;
      PiecesCons(p, more, "\"" + BasicBody(s).rest);
    }
  }

  /** The first character of a string, and the text after it. */
  lemma PieceSplit(s: string) returns (p: Piece, next: string)
    requires BasicBody(s).Got? && s[0] != '"'
    ensures PieceFits(p) && s == WritePiece(p, next) && |next| < |s|
    ensures BasicBody(next).Got? && BasicBody(s) == Push([p.c], BasicBody(next))
  {
    if s[0] != '\\' {
      p, next := Raw(s[0]), s[1..];
      assert s == [s[0]] + s[1..];
    } else {
      p := PieceFrom(s[1..]);
      next := Escape(s[1..]).rest;
      assert s == "\\" + s[1..];
    }
  }

  lemma PiecesCons(p: Piece, more: seq<Piece>, rest: string)
    requires PieceFits(p) && PiecesFit(more)
    ensures PiecesFit([p] + more) && WritePieces([p] + more, rest) == WritePiece(p, WritePieces(more, rest))
    ensures TextOf([p] + more) == [p.c] + TextOf(more)
  {
    var ps := [p] + more;
    PiecesFitCons(p, more);
    TextCons(p, more);
    assert ps[0] == p && ps[1..] == more;
  }

  lemma PiecesFitCons(p: Piece, more: seq<Piece>)
    requires PieceFits(p) && PiecesFit(more)
    ensures PiecesFit([p] + more)
  {
    forall i | 0 <= i < |[p] + more| ensures PieceFits(([p] + more)[i]) {
      if i > 0 { assert ([p] + more)[i] == more[i - 1]; }
    }
  }

  lemma TextCons(p: Piece, more: seq<Piece>)
    ensures TextOf([p] + more) == [p.c] + TextOf(more)
  {
  }

  lemma {:induction false} LiteralFrom(s: string) returns (text: string)
    requires LiteralBody(s).Got?
    ensures NameFits(Literal(text)) && text == LiteralBody(s).value && s == text + ("'" + LiteralBody(s).rest)
    decreases |s|
  {
    if s[0] == '\'' {
      text := "";
      assert s == "" + ("'" + s[1..]);
    } else {
      var more := LiteralFrom(s[1..]);
      text := [s[0]] + more;
    }
  }

  lemma QuoteFrom(s: string) returns (n: Name)
    requires (StartsWith(s, '"') && BasicString(s).Got?) || (StartsWith(s, '\'') && LiteralString(s).Got?)
    ensures NameFits(n) && !n.Bare?
    ensures var r := if StartsWith(s, '"') then BasicString(s) else LiteralString(s);
            NameText(n) == r.value && s == WriteName(n, r.rest)
  {
    assert s == [s[0]] + s[1..];
    if StartsWith(s, '"') {
      var ps := PiecesFrom(s[1..]);
      n := Basic(ps);
    } else {
      var text := LiteralFrom(s[1..]);
      n := Literal(text);
    }
  }

  lemma NameFrom(s: string) returns (n: Name)
    requires KeySegment(s).Got?
    ensures NameFits(n) && NameText(n) == KeySegment(s).value && s == WriteName(n, KeySegment(s).rest)
  {
    if StartsWith(s, '"') || StartsWith(s, '\'') {
      n := QuoteFrom(s);
    } else {
      n := Bare(s[..BareLength(s)]);
      assert s == s[..BareLength(s)] + s[BareLength(s)..];
    }
  }

  lemma {:induction false} DottedFrom(s: string) returns (d: Dotted, pad: string)
    requires KeyPath(s).Got?
    ensures DottedFits(d) && IsPad(pad) && Parts(d) == KeyPath(s).value && s == WriteDotted(d, pad + KeyPath(s).rest)
    decreases |s|
  {
    var n := NameFrom(s);
    var rest := KeySegment(s).rest;
    var before := PadFrom(rest);
    var t := SkipSpaces(rest);
    if !StartsWith(t, '.') {
      d, pad := One(n), before;
    } else {
      assert t == "." + t[1..];
      var after := PadFrom(t[1..]);
      var more;
      more, pad := DottedFrom(SkipSpaces(t[1..]));
      d := Dot(n, before, after, more);
    }
  }

  // ---------------------------------------------------------------------------------
  // Values
  // ---------------------------------------------------------------------------------

  lemma TokenFrom(s: string) returns (n: Node)
    requires s != "" && s[0] != '"' && s[0] != '\'' && s[0] != '[' && s[0] != '{' && ReadToken(s).Got?
    ensures NodeFits(n) && Meaning(n) == Ok(ReadToken(s).value) && s == WriteNode(n, ReadToken(s).rest)
  {
    var k := TokenLength(s);
    n := Token(s[..k]);
    assert s == s[..k] + s[k..];
  }

  lemma {:induction false} NodeFrom(s: string) returns (n: Node)
    requires ReadValue(s).Got?
    ensures NodeFits(n) && Meaning(n) == Ok(ReadValue(s).value) && s == WriteNode(n, ReadValue(s).rest)
    decreases |s|, 1
  {
    assert s == [s[0]] + s[1..];
    if s[0] == '"' || s[0] == '\'' {
      var name := QuoteFrom(s);
      n := Quote(name);
    } else if s[0] == '[' {
      var items := ItemsFrom(s[1..]);
      n := Node.List(items);
    } else if s[0] == '{' {
      n := BraceFrom(s);
    } else {
      n := TokenFrom(s);
    }
  }

  lemma {:induction false} BraceFrom(s: string) returns (n: Node)
    requires StartsWith(s, '{') && ReadValue(s).Got?
    ensures NodeFits(n) && Meaning(n) == Ok(ReadValue(s).value) && s == WriteNode(n, ReadValue(s).rest)
    decreases |s|, 0
  {
    assert s == "{" + s[1..];
    var t := SkipSpaces(s[1..]);
    if StartsWith(t, '}') {
      var pad := PadFrom(s[1..]);
      n := Empty(pad);
      assert t == "}" + t[1..];
    } else {
      SkippedPairs(s[1..], Table([], []));
      var pairs := PairsFrom(s[1..], Table([], []));
      n := Inline(pairs);
    }
  }

  lemma {:induction false} ItemsFrom(s: string) returns (items: Items)
    requires ReadItems(s).Got?
    ensures ItemsFit(items) && ItemsMean(items) == Ok(ReadItems(s).value) && s == WriteItems(items, ReadItems(s).rest)
    decreases |s|, 2
  {
    var t := SkipBlanks(s);
    var gap := GapFrom(s);
    if StartsWith(t, ']') {
      items := NoItem(gap);
      assert t == "]" + t[1..];
    } else {
      var rest, u := ItemSplit(s);
      var node := NodeFrom(t);
      var after := GapFrom(rest);
      if StartsWith(u, ',') {
        var more := ItemsFrom(u[1..]);
        items := Item(gap, node, after, more);
      } else {
        items := LastItem(gap, node, after);
      }
    }
  }

  /** The first item that is read, and what follows it. */
  lemma ItemSplit(s: string) returns (rest: string, u: string)
    requires ReadItems(s).Got? && !StartsWith(SkipBlanks(s), ']')
    ensures ReadValue(SkipBlanks(s)).Got? && rest == ReadValue(SkipBlanks(s)).rest && u == SkipBlanks(rest) != ""
    ensures u == [u[0]] + u[1..] && (u[0] == ',' || u[0] == ']') && |u| < |s|
    ensures ReadItems(s) == AfterItem(Ok(ReadValue(SkipBlanks(s)).value), u[0], u[1..])
  {
    rest := ReadValue(SkipBlanks(s)).rest;
    u := SkipBlanks(rest);
  }

  lemma {:induction false} BindingFrom(s: string) returns (key: Dotted, before: string, after: string, node: Node)
    requires ReadBinding(s).Got?
    ensures DottedFits(key) && IsPad(before) && IsPad(after) && NodeFits(node)
    ensures Parts(key) == ReadBinding(s).value.0 && Meaning(node) == Ok(ReadBinding(s).value.1)
    ensures s == WriteBinding(key, before, after, node, ReadBinding(s).rest)
    decreases |s|, 2
  {
    var rest, t := BindingSplit(s);
    key, before := DottedFrom(s);
    var more := PadFrom(rest);
    before := JoinPads(before, more, t);
    after := PadFrom(t[1..]);
    node := NodeFrom(SkipSpaces(t[1..]));
    assert t[1..] == after + SkipSpaces(t[1..]);
  }

  /** The key of a binding, and what follows it from the equals sign on. */
  lemma BindingSplit(s: string) returns (rest: string, t: string)
    requires ReadBinding(s).Got?
    ensures KeyPath(s) == Got(ReadBinding(s).value.0, rest) && t == SkipSpaces(rest) && t != "" && t == "=" + t[1..] && |t| < |s|
    ensures ReadValue(SkipSpaces(t[1..])) == Got(ReadBinding(s).value.1, ReadBinding(s).rest)
  {
    rest := KeyPath(s).rest;
    t := SkipSpaces(rest);
  }

  lemma JoinPads(a: string, b: string, t: string) returns (w: string)
    requires IsPad(a) && IsPad(b)
    ensures IsPad(w) && w + t == a + (b + t)
  {
    w := a + b;
    assert w + t == a + (b + t);
  }

  lemma {:induction false} PairsFrom(s: string, table: Value) returns (pairs: Pairs)
    requires table.Table? && WellFormed(table) && ReadPairs(s, table).Got?
    ensures PairsFit(pairs) && PairsMean(pairs, table) == Ok(ReadPairs(s, table).value)
    ensures s == WritePairs(pairs, ReadPairs(s, table).rest)
    decreases |s|, 3
  {
    var b, rest, u, next := PairSplit(s, table);
    var pad := PadFrom(s);
    var key, before, after, node := BindingFrom(SkipSpaces(s));
    var end := PadFrom(rest);
    if StartsWith(u, ',') {
      var more := PairsFrom(u[1..], next);
      pairs := Pair(pad, key, before, after, node, end, more);
    } else {
      pairs := LastPair(pad, key, before, after, node, end);
    }
    PairWritten(pairs, s, rest, u, ReadPairs(s, table).rest);
  }

  /** The first pair that is read, and what follows it. */
  lemma PairSplit(s: string, table: Value) returns (b: (seq<string>, Value), rest: string, u: string, next: Value)
    requires table.Table? && WellFormed(table) && ReadPairs(s, table).Got?
    ensures b.0 != [] && WellFormed(b.1) && ReadBinding(SkipSpaces(s)) == Got(b, rest)
    ensures Assign(table, b.0, b.1) == Ok(next) && next.Table? && WellFormed(next)
    ensures u == SkipSpaces(rest) && u != "" && u == [u[0]] + u[1..] && (u[0] == ',' || u[0] == '}') && |u| < |s|
    ensures ReadPairs(s, table) == if u[0] == '}' then Got(next, u[1..]) else ReadPairs(u[1..], next)
  {
    b, rest := ReadBinding(SkipSpaces(s)).value, ReadBinding(SkipSpaces(s)).rest;
    u, next := SkipSpaces(rest), Assign(table, b.0, b.1).value;
  }

  lemma PairWritten(pairs: Pairs, s: string, rest: string, u: string, left: string)
    requires PairsFit(pairs) && s == pairs.pad + SkipSpaces(s) && rest == pairs.end + u
    requires SkipSpaces(s) == WriteBinding(pairs.key, pairs.before, pairs.after, pairs.node, rest)
    requires u == if pairs.LastPair? then "}" + left else "," + WritePairs(pairs.more, left)
    ensures s == WritePairs(pairs, left)
  {
  }

  // ---------------------------------------------------------------------------------
  // Statements and texts
  // ---------------------------------------------------------------------------------

  lemma HeadFrom(s: string) returns (line: Line)
    requires StartsWith(s, '[') && ReadHeader(s).Got?
    ensures LineFits(line) && LineMeans(line) == Ok(ReadHeader(s).value) && s == WriteLine(line, ReadHeader(s).rest)
  {
    var isArray := "[[" <= s;
    var inside := if isArray then s[2..] else s[1..];
    var pad := PadFrom(inside);
    var key, end := DottedFrom(SkipSpaces(inside));
    var rest := KeyPath(SkipSpaces(inside)).rest;
    var more := PadFrom(rest);
    end := JoinPads(end, more, SkipSpaces(rest));
    line := Head(isArray, pad, key, end);
    HeadText(s, isArray, inside, SkipSpaces(rest), ReadHeader(s).rest);
  }

  lemma HeadText(s: string, isArray: bool, inside: string, u: string, rest: string)
    requires StartsWith(s, '[') && isArray == ("[[" <= s) && inside == (if isArray then s[2..] else s[1..])
    requires if isArray then "]]" <= u && rest == u[2..] else StartsWith(u, ']') && rest == u[1..]
    ensures s == if isArray then "[" + ("[" + inside) else "[" + inside
    ensures u == if isArray then "]" + ("]" + rest) else "]" + rest
  {
  }

  lemma StmtFrom(s: string) returns (line: Line)
    requires ReadStmt(s).Got?
    ensures LineFits(line) && LineMeans(line) == Ok(ReadStmt(s).value) && s == WriteLine(line, ReadStmt(s).rest)
  {
    if StartsWith(s, '[') {
      line := HeadFrom(s);
    } else {
      var key, before, after, node := BindingFrom(s);
      line := Binding(key, before, after, node);
    }
  }

  /** The end of a statement: a margin and then the end of the text or of the line. */
  lemma MarginFrom(s: string) returns (m: Margin, tail: string)
    requires EndOfStatement(s).Got?
    ensures MarginFits(m) && s == WriteMargin(m, tail) && EndOfStatement(s).rest == if tail == "" then "" else tail[1..]
    ensures tail == "" || tail[0] == '\n' || (tail[0] == '\r' && m.comment.None?)
    ensures tail != "" ==> tail == [tail[0]] + EndOfStatement(s).rest
  {
    var pad := PadFrom(s);
    var t := SkipSpaces(s);
    if StartsWith(t, '#') {
      var c := LineFrom(t[1..]);
      tail := ToLineFeed(t[1..]);
      m := Margin(pad, Some(c));
      assert t == "#" + (c + tail);
    } else {
      m, tail := Margin(pad, None), t;
    }
  }

  /** Every text that is read to its end is a document, in some spelling and layout, with those statements. */
  lemma {:induction false} TextFrom(s: string) returns (t: Text)
    requires Statements(s).fault.None?
    ensures TextFits(t) && WriteText(t) == s && Contents(t) == Statements(s)
    decreases |s|
  {
    var u := SkipBlanks(s);
    if u == "" {
      var gap, margin := BlankFrom(s);
      t := Done(gap, margin);
    } else {
      var gap := GapFrom(s);
      var stmt, rest, left := StmtSplit(s);
      var line := StmtFrom(u);
      var margin, tail := MarginFrom(rest);
      if tail == "" {
        t := LastFrom(s, gap, line, margin);
      } else {
        var more := TextFrom(left);
        t := MoreFrom(s, gap, line, margin, tail[0], more);
      }
    }
  }

  lemma LastFrom(s: string, gap: string, line: Line, margin: Margin) returns (t: Text)
    requires IsGap(gap) && LineFits(line) && MarginFits(margin) && s == gap + WriteLine(line, WriteMargin(margin, ""))
    ensures TextFits(t) && WriteText(t) == s && Contents(t) == Before(LineMeans(line), Statements(""))
  {
    t := Last(gap, line, margin);
    assert Statements("") == Reading([], None);
  }

  lemma MoreFrom(s: string, gap: string, line: Line, margin: Margin, end: char, more: Text) returns (t: Text)
    requires IsGap(gap) && LineFits(line) && MarginFits(margin) && TextFits(more)
    requires s == gap + WriteLine(line, WriteMargin(margin, [end] + WriteText(more)))
    requires end == '\n' || (end == '\r' && margin.comment.None?)
    ensures TextFits(t) && WriteText(t) == s && Contents(t) == Before(LineMeans(line), Contents(more))
  {
    t := More(gap, line, margin, end, more);
  }

  /** The first statement that is read, and what it leaves. */
  lemma StmtSplit(s: string) returns (stmt: Stmt, rest: string, left: string)
    requires Statements(s).fault.None? && SkipBlanks(s) != ""
    ensures ReadStmt(SkipBlanks(s)) == Got(stmt, rest) && EndOfStatement(rest) == Got((), left) && |left| < |s|
    ensures Statements(left).fault.None? && Statements(s) == Before(Ok(stmt), Statements(left))
  {
    stmt, rest := ReadStmt(SkipBlanks(s)).value, ReadStmt(SkipBlanks(s)).rest;
    left := EndOfStatement(rest).rest;
  }

  /** A text is read to its end, as these statements, if and only if it is a document that means them. */
  lemma ReadIff(s: string, stmts: seq<Stmt>)
    ensures Statements(s) == Reading(stmts, None) <==>
            exists t :: TextFits(t) && WriteText(t) == s && Contents(t) == Reading(stmts, None)
  {
    if Statements(s) == Reading(stmts, None) {
      var t := TextFrom(s);
    }
    if t :| TextFits(t) && WriteText(t) == s && Contents(t) == Reading(stmts, None) {
      TextRead(t);
    }
  }
}
