/**
  When scripts/toml_reader.py fails with something else than a decode error.

  Loading a text is reading its statements and running them, so a load crashes if and only if a statement
  does or, where all of them run, one of the escapes read names no code point.
 */
module TomlCrash {
  import opened Wrappers
  import opened TomlText
  import opened TomlValue
  import opened TomlDocument
  import opened TomlRun
  import opened TomlLoad
  import opened TomlPaths

  // ---------------------------------------------------------------------------------
  // Loading is reading, then running
  // ---------------------------------------------------------------------------------

  /** The statements of a text, up to the first thing that cannot be read, and why it cannot. */
  datatype Reading = Reading(stmts: seq<Stmt>, fault: Option<Fault>)

  function Statements(s: string): (r: Reading)
    ensures forall i | 0 <= i < |r.stmts| :: r.stmts[i].path != []
    decreases |s|
  {
    var t := SkipBlanks(s);
    if t == "" then Reading([], None)
    else
      match ReadStmt(t)
      case Fail(f) => Reading([], Some(f))
      case Got(stmt, rest) =>
        match EndOfStatement(rest)
        case Fail(f) => Reading([stmt], Some(f))
        case Got(_, left) => var more := Statements(left); Reading([stmt] + more.stmts, more.fault)
  }

  function Outcome(d: Doc, r: Reading): Result<Doc, Fault>
    requires Runnable(d) && forall i | 0 <= i < |r.stmts| :: r.stmts[i].path != []
  {
    match RunAll(d, r.stmts)
    case Err(f) => Err(f)
    case Ok(d') => if r.fault.Some? then Err(r.fault.value) else Ok(d')
  }

  /**
    The reader runs each statement before it reads the next one.  The outcome is that of reading all that can be
    read first and running it afterwards, for every text and every document to start from.
   */
  lemma {:induction false} LoadIsReadThenRun(s: string, d: Doc)
    requires Runnable(d)
    ensures Load(s, d) == Outcome(d, Statements(s))
    decreases |s|
  {
    var t := SkipBlanks(s);
    if t != "" && ReadStmt(t).Got? {
      var Got(stmt, rest) := ReadStmt(t);
      if Exec(d, stmt).Ok? {
        var d' := Exec(d, stmt).value;
        match EndOfStatement(rest)
        case Fail(_) =>
          RunCons(d, stmt, []);
          assert [stmt] + [] == [stmt];
        case Got(_, left) =>
          LoadIsReadThenRun(left, d');
          RunCons(d, stmt, Statements(left).stmts);
      }
    }
  }

  // ---------------------------------------------------------------------------------
  // The escapes that are read
  // ---------------------------------------------------------------------------------

  /** One of the escapes, given by the text after its backslash, names no code point at all. */
  predicate Wide(escapes: set<string>) {
    exists u | u in escapes :: Escape(u) == Fail(Crash)
  }

  lemma WideUnion(a: set<string>, b: set<string>)
    ensures Wide(a + b) <==> Wide(a) || Wide(b)
  {
    if Wide(a) {
      var u :| u in a && Escape(u) == Fail(Crash);
      assert u in a + b;
    }
    if Wide(b) {
      var u :| u in b && Escape(u) == Fail(Crash);
      assert u in a + b;
    }
  }

  /** The escapes of a basic string, up to its end or the first that cannot be read. */
  function BodyEscapes(s: string): set<string>
    decreases |s|
  {
    if s == "" || IsLineEnd(s[0]) || s[0] == '"' then {}
    else if s[0] != '\\' then BodyEscapes(s[1..])
    else {s[1..]} + match Escape(s[1..]) case Fail(_) => {} case Got(_, rest) => BodyEscapes(rest)
  }

  lemma {:induction false} BodyCrashIff(s: string)
    ensures BasicBody(s) == Fail(Crash) <==> Wide(BodyEscapes(s))
    decreases |s|
  {
    if s != "" && !IsLineEnd(s[0]) && s[0] != '"' {
      if s[0] != '\\' {
        BodyCrashIff(s[1..]);
      } else {
        assert Wide({s[1..]}) <==> Escape(s[1..]) == Fail(Crash) by { assert s[1..] in {s[1..]}; }
        if Escape(s[1..]).Got? {
          var rest := Escape(s[1..]).rest;
          BodyCrashIff(rest);
          WideUnion({s[1..]}, BodyEscapes(rest));
        } else {
          WideUnion({s[1..]}, {});
        }
      }
    }
  }

  function StringEscapes(s: string): set<string> {
    if "\"\"\"" <= s || !StartsWith(s, '"') then {} else BodyEscapes(s[1..])
  }

  lemma StringCrashIff(s: string)
    ensures BasicString(s) == Fail(Crash) <==> Wide(StringEscapes(s))
  {
    if StartsWith(s, '"') { BodyCrashIff(s[1..]); }
  }

  lemma {:induction false} LiteralNeverCrashes(s: string)
    ensures LiteralBody(s) != Fail(Crash)
  {
    if s != "" { LiteralNeverCrashes(s[1..]); }
  }

  /** The escapes of a dotted key, up to its end or the first segment that cannot be read. */
  function KeyEscapes(s: string): set<string>
    decreases |s|
  {
    StringEscapes(s) +
    match KeySegment(s)
    case Fail(_) => {}
    case Got(_, rest) =>
      var t := SkipSpaces(rest);
      if StartsWith(t, '.') then KeyEscapes(SkipSpaces(t[1..])) else {}
  }

  lemma SegmentCrashIff(s: string)
    ensures KeySegment(s) == Fail(Crash) <==> Wide(StringEscapes(s))
  {
    StringCrashIff(s);
    if s != "" { LiteralNeverCrashes(s[1..]); }
  }

  lemma {:induction false} KeyCrashIff(s: string)
    ensures KeyPath(s) == Fail(Crash) <==> Wide(KeyEscapes(s))
    decreases |s|
  {
    SegmentCrashIff(s);
    WideUnion(StringEscapes(s), {});
    if KeySegment(s).Got? {
      var t := SkipSpaces(KeySegment(s).rest);
      if StartsWith(t, '.') {
        var u := SkipSpaces(t[1..]);
        KeyCrashIff(u);
        WideUnion(StringEscapes(s), KeyEscapes(u));
      }
    }
  }

  function ValueEscapes(s: string): set<string>
    decreases |s|, 0
  {
    if s == "" then {}
    else if s[0] == '"' then StringEscapes(s)
    else if s[0] == '[' then ItemEscapes(s[1..])
    else if s[0] == '{' && !StartsWith(SkipSpaces(s[1..]), '}') then PairEscapes(SkipSpaces(s[1..]), Table([], []))
    else {}
  }

  function ItemEscapes(s: string): set<string>
    decreases |s|, 1
  {
    var t := SkipBlanks(s);
    if StartsWith(t, ']') then {}
    else
      ValueEscapes(t) +
      match ReadValue(t)
      case Fail(_) => {}
      case Got(_, rest) =>
        var u := SkipBlanks(rest);
        if StartsWith(u, ',') then ItemEscapes(u[1..]) else {}
  }

  function BindingEscapes(s: string): set<string>
    decreases |s|, 1
  {
    KeyEscapes(s) +
    match KeyPath(s)
    case Fail(_) => {}
    case Got(_, rest) =>
      var t := SkipSpaces(rest);
      if StartsWith(t, '=') then ValueEscapes(SkipSpaces(t[1..])) else {}
  }

  function PairEscapes(s: string, table: Value): set<string>
    requires table.Table? && WellFormed(table)
    decreases |s|, 2
  {
    BindingEscapes(SkipSpaces(s)) +
    match ReadBinding(SkipSpaces(s))
    case Fail(_) => {}
    case Got(b, rest) =>
      match Assign(table, b.0, b.1)
      case Err(_) => {}
      case Ok(more) =>
        var u := SkipSpaces(rest);
        if StartsWith(u, ',') then PairEscapes(u[1..], more) else {}
  }

  lemma {:induction false} ValueCrashIff(s: string)
    ensures ReadValue(s) == Fail(Crash) <==> Wide(ValueEscapes(s))
    decreases |s|, 0
  {
    if s != "" {
      if s[0] == '"' {
        StringCrashIff(s);
      } else if s[0] == '[' {
        ItemsCrashIff(s[1..]);
      } else if s[0] == '{' {
        var t := SkipSpaces(s[1..]);
        if !StartsWith(t, '}') { PairsCrashIff(t, Table([], [])); }
      } else if s[0] == '\'' {
        LiteralNeverCrashes(s[1..]);
      }
    }
  }

  lemma {:induction false} ItemsCrashIff(s: string)
    ensures ReadItems(s) == Fail(Crash) <==> Wide(ItemEscapes(s))
    decreases |s|, 1
  {
    var t := SkipBlanks(s);
    if !StartsWith(t, ']') {
      ValueCrashIff(t);
      WideUnion(ValueEscapes(t), {});
      if ReadValue(t).Got? {
        var u := SkipBlanks(ReadValue(t).rest);
        if StartsWith(u, ',') {
          ItemsCrashIff(u[1..]);
          WideUnion(ValueEscapes(t), ItemEscapes(u[1..]));
        }
      }
    }
  }

  lemma {:induction false} BindingCrashIff(s: string)
    ensures ReadBinding(s) == Fail(Crash) <==> Wide(BindingEscapes(s))
    decreases |s|, 1
  {
    KeyCrashIff(s);
    WideUnion(KeyEscapes(s), {});
    if KeyPath(s).Got? {
      var t := SkipSpaces(KeyPath(s).rest);
      if StartsWith(t, '=') {
        var u := SkipSpaces(t[1..]);
        ValueCrashIff(u);
        WideUnion(KeyEscapes(s), ValueEscapes(u));
      }
    }
  }

  lemma {:induction false} InlineNeverCrashes(table: Value, path: seq<string>, v: Value)
    requires table.Table? && path != [] && WellFormed(table) && WellFormed(v)
    ensures Assign(table, path, v) != Err(Crash)
    decreases |path|
  {
    if |path| > 1 {
      var i := Index(table.keys, path[0]);
      if i == |table.keys| {
        InlineNeverCrashes(Table([], []), path[1..], v);
      } else if table.values[i].Table? {
        InlineNeverCrashes(table.values[i], path[1..], v);
      }
    }
  }

  lemma {:induction false} PairsCrashIff(s: string, table: Value)
    requires table.Table? && WellFormed(table)
    ensures ReadPairs(s, table) == Fail(Crash) <==> Wide(PairEscapes(s, table))
    decreases |s|, 2
  {
    var t := SkipSpaces(s);
    BindingCrashIff(t);
    WideUnion(BindingEscapes(t), {});
    if ReadBinding(t).Got? {
      var Got(b, rest) := ReadBinding(t);
      InlineNeverCrashes(table, b.0, b.1);
      var u := SkipSpaces(rest);
      if Assign(table, b.0, b.1).Ok? && StartsWith(u, ',') {
        var more := Assign(table, b.0, b.1).value;
        PairsCrashIff(u[1..], more);
        WideUnion(BindingEscapes(t), PairEscapes(u[1..], more));
      }
    }
  }

  function StmtEscapes(s: string): set<string> {
    if StartsWith(s, '[') then KeyEscapes(SkipSpaces(if "[[" <= s then s[2..] else s[1..])) else BindingEscapes(s)
  }

  lemma StmtCrashIff(s: string)
    ensures ReadStmt(s) == Fail(Crash) <==> Wide(StmtEscapes(s))
  {
    if StartsWith(s, '[') {
      KeyCrashIff(SkipSpaces(if "[[" <= s then s[2..] else s[1..]));
    } else {
      BindingCrashIff(s);
    }
  }

  /** The escapes of a text, up to the first thing that cannot be read. */
  function TextEscapes(s: string): set<string>
    decreases |s|
  {
    var t := SkipBlanks(s);
    if t == "" then {}
    else
      StmtEscapes(t) +
      match ReadStmt(t)
      case Fail(_) => {}
      case Got(_, rest) =>
        match EndOfStatement(rest)
        case Fail(_) => {}
        case Got(_, left) => TextEscapes(left)
  }

  lemma {:induction false} ReadingCrashIff(s: string)
    ensures Statements(s).fault == Some(Crash) <==> Wide(TextEscapes(s))
    decreases |s|
  {
    var t := SkipBlanks(s);
    if t != "" {
      StmtCrashIff(t);
      WideUnion(StmtEscapes(t), {});
      if ReadStmt(t).Got? && EndOfStatement(ReadStmt(t).rest).Got? {
        var left := EndOfStatement(ReadStmt(t).rest).rest;
        ReadingCrashIff(left);
        WideUnion(StmtEscapes(t), TextEscapes(left));
      }
    }
  }

  // ---------------------------------------------------------------------------------
  // Texts that crash
  // ---------------------------------------------------------------------------------

  /**
    A text fails with something else than a decode error if and only if one of its statements does, or all that
    are read run and an escape read names no code point.
   */
  lemma CrashIff(text: string)
    ensures var outcome := RunAll(EMPTY, Statements(text).stmts);
            Loads(text) == Err(Crash) <==> outcome == Err(Crash) || (outcome.Ok? && Wide(TextEscapes(text)))
  {
    LoadIsReadThenRun(text, EMPTY);
    ReadingCrashIff(text);
  }

  /**
    With no array assigned at the path of an array-of-tables header, no statement crashes: a text is loaded, or
    refused with a decode error, unless all that is read runs up to such an escape.
   */
  lemma CleanTextCrashIff(text: string)
    requires CleanFrom(ArrayPaths(Statements(text).stmts), [], Statements(text).stmts)
    ensures Loads(text) == Err(Crash) <==> RunAll(EMPTY, Statements(text).stmts).Ok? && Wide(TextEscapes(text))
  {
    CrashIff(text);
    CleanDocumentNeverCrashes(Statements(text).stmts);
  }
}
