/**
  Whole documents of scripts/toml_reader.py: every load is a run of statements, so what runs
  keep holds of it; and what it means for a document to spell a table.
 */
module TomlLoad {
  import opened Wrappers
  import opened TomlText
  import opened TomlValue
  import opened TomlDocument
  import opened TomlRun

  // ---------------------------------------------------------------------------------
  // Statements as text
  // ---------------------------------------------------------------------------------

  function ReadHeader(s: string): (r: Read<Stmt>)
    requires StartsWith(s, '[')
    ensures r.Got? ==> |r.rest| < |s| && r.value.Header? && r.value.path != []
  {
    var isArray := "[[" <= s;
    match KeyPath(SkipSpaces(if isArray then s[2..] else s[1..]))
    case Fail(f) => Fail(f)
    case Got(path, rest) =>
      var u := SkipSpaces(rest);
      if isArray then
        if "]]" <= u then Got(Header(path, true), u[2..]) else Fail(Unexpected)
      else if StartsWith(u, ']') then Got(Header(path, false), u[1..])
      else Fail(Unexpected)
  }

  function ReadStmt(s: string): (r: Read<Stmt>)
    ensures r.Got? ==> |r.rest| < |s| && r.value.path != []
    ensures r.Got? && r.value.KeyValue? ==> WellFormed(r.value.value)
  {
    if StartsWith(s, '[') then ReadHeader(s)
    else
      match ReadBinding(s)
      case Fail(f) => Fail(f)
      case Got(b, rest) => Got(KeyValue(b.0, b.1), rest)
  }

  /** The rest of a text, read into a document. */
  function Load(s: string, d: Doc): (r: Result<Doc, Fault>)
    requires Runnable(d)
    ensures r.Ok? ==> Runnable(r.value)
    decreases |s|
  {
    var t := SkipBlanks(s);
    if t == "" then Ok(d)
    else
      match ReadStmt(t)
      case Fail(f) => Err(f)
      case Got(stmt, rest) =>
        match Exec(d, stmt)
        case Err(f) => Err(f)
        case Ok(d') =>
          match EndOfStatement(rest)
          case Fail(f) => Err(f)
          case Got(_, left) => Load(left, d')
  }

  function Loads(text: string): Result<Doc, Fault> {
    Load(text, EMPTY)
  }

  /** The first statement of an accepted text, and what it leaves to load. */
  lemma LoadOne(s: string, d: Doc) returns (stmt: Stmt, left: string, d': Doc)
    requires Sound(d) && Runnable(d) && Load(s, d).Ok? && SkipBlanks(s) != ""
    ensures stmt.path != [] && (stmt.KeyValue? ==> WellFormed(stmt.value)) && Exec(d, stmt) == Ok(d')
    ensures |left| < |s| && Sound(d') && Runnable(d') && Load(s, d) == Load(left, d')
  {
    stmt := ReadStmt(SkipBlanks(s)).value;
    left := EndOfStatement(ReadStmt(SkipBlanks(s)).rest).rest;
    d' := Exec(d, stmt).value;
    ExecKeeps(d, stmt);
  }

  /** An accepted text is an accepted run of statements. */
  lemma {:induction false} LoadIsRun(s: string, d: Doc) returns (stmts: seq<Stmt>, docs: seq<Doc>)
    requires Sound(d) && Runnable(d) && Load(s, d).Ok?
    ensures IsRun(stmts, docs) && docs[0] == d && docs[|stmts|] == Load(s, d).value
    decreases |s|
  {
    if SkipBlanks(s) == "" {
      stmts, docs := [], [d];
    } else {
      var stmt, left, d' := LoadOne(s, d);
      var more, later := LoadIsRun(left, d');
      stmts, docs := [stmt] + more, [d] + later;
      RunStartsEarlier(d, stmt, more, later);
    }
  }

  lemma RunStartsEarlier(d: Doc, stmt: Stmt, more: seq<Stmt>, later: seq<Doc>)
    requires Sound(d) && Runnable(d) && stmt.path != [] && (stmt.KeyValue? ==> WellFormed(stmt.value))
    requires IsRun(more, later) && Exec(d, stmt) == Ok(later[0])
    ensures IsRun([stmt] + more, [d] + later)
  {
    var stmts, docs := [stmt] + more, [d] + later;
    forall i | 0 <= i < |stmts| ensures Runnable(docs[i]) && Exec(docs[i], stmts[i]) == Ok(docs[i + 1]) {
      if i > 0 {
        assert Exec(later[i - 1], more[i - 1]) == Ok(later[i - 1 + 1]);
        assert docs[i + 1] == later[i];
      }
    }
    forall i | 0 <= i < |stmts| ensures stmts[i].path != [] && (stmts[i].KeyValue? ==> WellFormed(stmts[i].value)) {
      if i > 0 { assert stmts[i] == more[i - 1]; }
    }
  }

  /** Every document that is loaded is a tree, with the current table in it. */
  lemma LoadedIsSound(text: string)
    requires Loads(text).Ok?
    ensures Sound(Loads(text).value)
  {
    EmptyIsSound();
    var stmts, docs := LoadIsRun(text, EMPTY);
    RunGrows(stmts, docs, 0, |stmts|);
  }

  // ---------------------------------------------------------------------------------
  // Documents that spell a table
  // ---------------------------------------------------------------------------------

  /** The objects at `r` are exactly `v`. */
  ghost predicate Spells(s: Store, r: Ref, v: Value)
    decreases v
  {
    match v
    case Array(items) =>
      && r.Ptr? && r.address < |s| && s[r.address].List?
      && |items| == |s[r.address].slots|
      && forall i | 0 <= i < |items| :: Spells(s, s[r.address].slots[i], items[i])
    case Table(keys, values) =>
      && r.Ptr? && r.address < |s| && s[r.address].Dict?
      && keys == s[r.address].keys && |values| == |s[r.address].slots|
      && forall i | 0 <= i < |values| :: Spells(s, s[r.address].slots[i], values[i])
    case _ => r == Leaf(v)
  }
}
