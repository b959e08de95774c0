/**
  The class `_Parser` of scripts/toml_reader.py: methods that advance a position and update
  the document in place, each proved to do what the reading functions say.  That every
  method ends, never moves past the text, and consumes input where it returns a value
  follows from its loop measures and from the length contracts of those functions.
 */
module TomlParser {
  import opened Wrappers
  import T = TomlText
  import V = TomlValue
  import opened TomlDocument
  import R = TomlRun
  import L = TomlLoad

  type Value = T.Value
  type Fault = T.Fault

  /** A dotted key once its first segment has been read. */
  function PathAfter(s: string): T.Read<seq<string>> {
    var t := T.SkipSpaces(s);
    if !T.StartsWith(t, '.') then T.Got([], t) else T.KeyPath(T.SkipSpaces(t[1..]))
  }

  function AfterKeys(ks: seq<string>, r: T.Read<seq<string>>): T.Read<seq<string>> {
    match r
    case Got(more, rest) => T.Got(ks + more, rest)
    case Fail(f) => T.Fail(f)
  }

  lemma AfterKeysStep(ks: seq<string>, k: string, rest: string)
    ensures AfterKeys(ks, T.PushKey(k, PathAfter(rest))) == AfterKeys(ks + [k], PathAfter(rest))
  {
    if PathAfter(rest).Got? {
      assert ks + ([k] + PathAfter(rest).value) == ks + [k] + PathAfter(rest).value;
    }
  }

  lemma KeyPathSplits(s: string)
    ensures T.KeyPath(s) == match T.KeySegment(s)
                            case Fail(f) => T.Fail(f)
                            case Got(k, rest) => T.PushKey(k, PathAfter(rest))
  {
    if T.KeySegment(s).Got? {
      var Got(k, rest) := T.KeySegment(s);
      assert [k] + [] == [k];
    }
  }

  /** The next dotted key, if there is one. */
  function NextKey(s: string): T.Read<Option<string>> {
    var t := T.SkipSpaces(s);
    if !T.StartsWith(t, '.') then T.Got(None, t)
    else
      match T.KeySegment(T.SkipSpaces(t[1..]))
      case Fail(f) => T.Fail(f)
      case Got(k, rest) => T.Got(Some(k), rest)
  }

  lemma PathByKey(s: string)
    ensures PathAfter(s) == match NextKey(s)
                            case Fail(f) => T.Fail(f)
                            case Got(None, rest) => T.Got([], rest)
                            case Got(Some(k), rest) => T.PushKey(k, PathAfter(rest))
  {
    var t := T.SkipSpaces(s);
    if T.StartsWith(t, '.') { KeyPathSplits(T.SkipSpaces(t[1..])); }
  }

  /** The next character of a basic string, or none at its closing quote. */
  function NextChar(s: string): T.Read<Option<char>> {
    if s == "" || T.IsLineEnd(s[0]) then T.Fail(T.Unterminated)
    else if s[0] == '"' then T.Got(None, s[1..])
    else if s[0] != '\\' then T.Got(Some(s[0]), s[1..])
    else
      match T.Escape(s[1..])
      case Fail(f) => T.Fail(f)
      case Got(c, rest) => T.Got(Some(c), rest)
  }

  lemma BodyByChar(s: string)
    ensures T.BasicBody(s) == match NextChar(s)
                              case Fail(f) => T.Fail(f)
                              case Got(None, rest) => T.Got("", rest)
                              case Got(Some(c), rest) => T.Push([c], T.BasicBody(rest))
  {
  }

  /** A literal string up to `end`, and one character more. */
  lemma LiteralStep(text: string, from: nat, end: nat)
    requires from <= end < |text| && text[end] != '\'' && !T.IsLineEnd(text[end])
    ensures T.Push(text[from..end], T.LiteralBody(text[end..])) == T.Push(text[from..end + 1], T.LiteralBody(text[end + 1..]))
  {
    assert text[end..][1..] == text[end + 1..];
    assert text[from..end + 1] == text[from..end] + [text[end]];
    T.PushPush(text[from..end], [text[end]], T.LiteralBody(text[end + 1..]));
  }

  lemma LiteralEnds(text: string, from: nat, end: nat)
    requires from <= end <= |text| && (end < |text| ==> text[end] == '\'' || T.IsLineEnd(text[end]))
    ensures T.Push(text[from..end], T.LiteralBody(text[end..])) ==
            if end < |text| && text[end] == '\'' then T.Got(text[from..end], text[end + 1..]) else T.Fail(T.Unterminated)
  {
    if end < |text| {
      assert text[end..][1..] == text[end + 1..];
      assert text[from..end] + "" == text[from..end];
    }
  }

  /** The closing bracket or brackets of a header. */
  function HeaderEnd(isArray: bool, s: string): T.Read<()> {
    var u := T.SkipSpaces(s);
    if isArray then (if "]]" <= u then T.Got((), u[2..]) else T.Fail(T.Unexpected))
    else if T.StartsWith(u, ']') then T.Got((), u[1..])
    else T.Fail(T.Unexpected)
  }

  function AfterItems(vs: seq<Value>, r: T.Read<seq<Value>>): T.Read<seq<Value>> {
    match r
    case Got(more, rest) => T.Got(vs + more, rest)
    case Fail(f) => T.Fail(f)
  }

  lemma AfterItemsStep(vs: seq<Value>, v: Value, r: T.Read<seq<Value>>)
    ensures AfterItems(vs, V.PushItem(v, r)) == AfterItems(vs + [v], r)
  {
    if r.Got? { assert vs + ([v] + r.value) == vs + [v] + r.value; }
  }

  lemma AfterNoItems(r: T.Read<seq<Value>>)
    ensures AfterItems([], r) == r
  {
    if r.Got? { assert [] + r.value == r.value; }
  }

  /** What one turn of the array loop reads: the bracket, or an item with the bracket or a comma. */
  datatype Piece = Close | Last(item: Value) | More(item: Value)

  function ReadPiece(s: string): T.Read<Piece> {
    var t := T.SkipBlanks(s);
    if T.StartsWith(t, ']') then T.Got(Close, t[1..])
    else
      match V.ReadValue(t)
      case Fail(f) => T.Fail(f)
      case Got(v, rest) =>
        var u := T.SkipBlanks(rest);
        if T.StartsWith(u, ',') then T.Got(More(v), u[1..])
        else if T.StartsWith(u, ']') then T.Got(Last(v), u[1..])
        else T.Fail(T.Unexpected)
  }

  lemma ItemsByPiece(s: string)
    ensures V.ReadItems(s) == match ReadPiece(s)
                              case Fail(f) => T.Fail(f)
                              case Got(Close, rest) => T.Got([], rest)
                              case Got(Last(v), rest) => T.Got([v], rest)
                              case Got(More(v), rest) => V.PushItem(v, V.ReadItems(rest))
  {
  }

  function ReadPair(s: string, table: Value): (r: T.Read<(Value, bool)>)
    requires table.Table? && V.WellFormed(table)
    ensures r.Got? ==> |r.rest| < |s| && r.value.0.Table? && V.WellFormed(r.value.0)
  {
    match V.ReadBinding(T.SkipSpaces(s))
    case Fail(f) => T.Fail(f)
    case Got(b, rest) =>
      match V.Assign(table, b.0, b.1)
      case Err(f) => T.Fail(f)
      case Ok(more) =>
        var u := T.SkipSpaces(rest);
        if T.StartsWith(u, ',') then T.Got((more, true), u[1..])
        else if T.StartsWith(u, '}') then T.Got((more, false), u[1..])
        else T.Fail(T.Unexpected)
  }

  lemma PairsByStep(s: string, table: Value)
    requires table.Table? && V.WellFormed(table)
    ensures V.ReadPairs(s, table) == match ReadPair(s, table)
                                     case Fail(f) => T.Fail(f)
                                     case Got((more, true), rest) => V.ReadPairs(rest, more)
                                     case Got((more, false), rest) => T.Got(more, rest)
  {
  }

  class Parser {
    const text: string
    var pos: nat
    var store: Store
    var current: nat
    var explicitTables: set<seq<string>>
    var arrayTables: set<seq<string>>

    constructor (text: string)
      ensures Valid() && this.text == text && pos == 0 && Document() == EMPTY
    {
      this.text := text;
      pos := 0;
      store, current := EMPTY.store, 0;
      explicitTables, arrayTables := {}, {};
    }

    ghost predicate Valid()
      reads this
    {
      pos <= |text|
    }

    /** The unread text. */
    ghost function Rest(): string
      reads this
      requires Valid()
    {
      text[pos..]
    }

    ghost function Document(): Doc
      reads this
    {
      Doc(store, current, explicitTables, arrayTables)
    }

    /** The outcome and the position are those of a reading. */
    ghost predicate Agrees<X(!new)>(r: Result<X, Fault>, spec: T.Read<X>)
      reads this
    {
      && Valid()
      && match spec
         case Got(x, rest) => r == Ok(x) && Rest() == rest
         case Fail(f) => r == Err(f)
    }

    predicate AtEnd()
      reads this
    {
      pos >= |text|
    }

    method SkipSpaces()
      requires Valid()
      modifies `pos
      ensures Valid() && Rest() == T.SkipSpaces(old(Rest()))
    {
      while pos < |text| && (text[pos] == ' ' || text[pos] == '\t')
        invariant Valid()
        invariant T.SkipSpaces(Rest()) == T.SkipSpaces(old(Rest()))
      {
        assert text[pos..][1..] == text[pos + 1..];
        pos := pos + 1;
      }
    }

    method SkipComment()
      requires Valid()
      modifies `pos
      ensures Valid() && Rest() == T.SkipComment(old(Rest()))
    {
      if pos < |text| && text[pos] == '#' {
        assert text[pos..][1..] == text[pos + 1..];
        var end := pos + 1;
        while end < |text| && text[end] != '\n'
          invariant pos < end <= |text|
          invariant T.ToLineFeed(text[end..]) == T.SkipComment(old(Rest()))
        {
          assert text[end..][1..] == text[end + 1..];
          end := end + 1;
        }
        pos := end;
      }
    }

    method SkipBlanks()
      requires Valid()
      modifies `pos
      ensures Valid() && Rest() == T.SkipBlanks(old(Rest()))
    {
      while pos < |text|
        invariant Valid()
        invariant T.SkipBlanks(Rest()) == T.SkipBlanks(old(Rest()))
      {
        var c := text[pos];
        assert text[pos..][1..] == text[pos + 1..];
        if c == ' ' || c == '\t' || c == '\r' || c == '\n' {
          pos := pos + 1;
        } else if c == '#' {
          SkipComment();
        } else {
          return;
        }
      }
    }

    method Expect(c: char) returns (r: Result<(), Fault>)
      requires Valid()
      modifies `pos
      ensures Agrees(r, T.Expect(old(Rest()), c))
    {
      if pos < |text| && text[pos] == c {
        assert text[pos..][1..] == text[pos + 1..];
        pos := pos + 1;
        return Ok(());
      }
      return Err(T.Unexpected);
    }

    method EndOfStatement() returns (r: Result<(), Fault>)
      requires Valid()
      modifies `pos
      ensures Agrees(r, T.EndOfStatement(old(Rest())))
    {
      SkipSpaces();
      SkipComment();
      if AtEnd() {
        return Ok(());
      }
      if text[pos] == '\r' || text[pos] == '\n' {
        assert text[pos..][1..] == text[pos + 1..];
        pos := pos + 1;
        return Ok(());
      }
      return Err(T.Unexpected);
    }

    method ParseKeySegment() returns (r: Result<string, Fault>)
      requires Valid()
      modifies `pos
      ensures Agrees(r, T.KeySegment(old(Rest())))
    {
      if pos < |text| && text[pos] == '"' {
        r := ParseBasicString();
        return;
      }
      if pos < |text| && text[pos] == '\'' {
        r := ParseLiteralString();
        return;
      }
      var n := T.BareLength(text[pos..]);
      if n == 0 {
        return Err(T.Unexpected);
      }
      r := Ok(text[pos..pos + n]);
      assert text[pos..][..n] == text[pos..pos + n] && text[pos..][n..] == text[pos + n..];
      pos := pos + n;
    }

    method ParseKeyPath() returns (r: Result<seq<string>, Fault>)
      requires Valid()
      modifies `pos
      ensures Agrees(r, T.KeyPath(old(Rest())))
    {
      ghost var start := Rest();
      KeyPathSplits(start);
      var first := ParseKeySegment();
      if first.Err? {
        return Err(first.error);
      }
      var parts := [first.value];
      while true
        invariant Valid()
        invariant T.KeyPath(start) == AfterKeys(parts, PathAfter(Rest()))
        decreases |text| - pos
      {
        PathByKey(Rest());
        var more := ParseNextKey();
        if more.Err? {
          return Err(more.error);
        }
        if more.value.None? {
          assert parts + [] == parts;
          return Ok(parts);
        }
        AfterKeysStep(parts, more.value.value, Rest());
        parts := parts + [more.value.value];
      }
    }

    /** A dot and the key after it, if the path goes on. */
    method ParseNextKey() returns (r: Result<Option<string>, Fault>)
      requires Valid()
      modifies `pos
      ensures Agrees(r, NextKey(old(Rest())))
      ensures r.Ok? && r.value.Some? ==> old(pos) < pos
    {
      SkipSpaces();
      if pos >= |text| || text[pos] != '.' {
        return Ok(None);
      }
      assert text[pos..][1..] == text[pos + 1..];
      pos := pos + 1;
      SkipSpaces();
      var more := ParseKeySegment();
      if more.Err? {
        return Err(more.error);
      }
      return Ok(Some(more.value));
    }

    method ParseBasicString() returns (r: Result<string, Fault>)
      requires Valid()
      modifies `pos
      ensures Agrees(r, T.BasicString(old(Rest())))
    {
      if "\"\"\"" <= text[pos..] {
        return Err(T.Unsupported);
      }
      var quote := Expect('"');
      if quote.Err? {
        return Err(quote.error);
      }
      r := ParseBasicBody();
    }

    /** The characters of a basic string after its opening quote. */
    method ParseBasicBody() returns (r: Result<string, Fault>)
      requires Valid()
      modifies `pos
      ensures Agrees(r, T.BasicBody(old(Rest())))
    {
      ghost var start := Rest();
      var chunks := "";
      T.PushNothing(T.BasicBody(start));
      while true
        invariant Valid()
        invariant T.BasicBody(start) == T.Push(chunks, T.BasicBody(Rest()))
        decreases |text| - pos
      {
        BodyByChar(Rest());
        var next := ParseChar();
        if next.Err? {
          return Err(next.error);
        }
        if next.value.None? {
          assert chunks + "" == chunks;
          return Ok(chunks);
        }
        T.PushPush(chunks, [next.value.value], T.BasicBody(Rest()));
        chunks := chunks + [next.value.value];
      }
    }

    /** One turn of the loop: the closing quote, or a character of the string. */
    method ParseChar() returns (r: Result<Option<char>, Fault>)
      requires Valid()
      modifies `pos
      ensures Agrees(r, NextChar(old(Rest())))
      ensures r.Ok? ==> pos > old(pos)
    {
      if AtEnd() || text[pos] == '\r' || text[pos] == '\n' {
        return Err(T.Unterminated);
      }
      var c := text[pos];
      assert text[pos..][1..] == text[pos + 1..];
      pos := pos + 1;
      if c == '"' {
        return Ok(None);
      }
      if c != '\\' {
        return Ok(Some(c));
      }
      var escaped := ParseEscape();
      if escaped.Err? {
        return Err(escaped.error);
      }
      return Ok(Some(escaped.value));
    }

    /** The escape sequence after a backslash. */
    method ParseEscape() returns (r: Result<char, Fault>)
      requires Valid()
      modifies `pos
      ensures Agrees(r, T.Escape(old(Rest())))
      ensures r.Ok? ==> pos > old(pos)
    {
      if AtEnd() {
        return Err(T.Unterminated);
      }
      var escape := text[pos];
      assert text[pos..][1..] == text[pos + 1..];
      pos := pos + 1;
      if T.SimpleEscape(escape).Some? {
        return Ok(T.SimpleEscape(escape).value);
      }
      if escape == 'u' || escape == 'U' {
        var width := if escape == 'u' then 4 else 8;
        if pos + width > |text| || !T.AllHex(text[pos..pos + width]) {
          assert pos + width <= |text| ==> text[pos..][..width] == text[pos..pos + width];
          return Err(T.BadEscape);
        }
        assert text[pos..][..width] == text[pos..pos + width] && text[pos..][width..] == text[pos + width..];
        var number := T.Digits(text[pos..pos + width], 16);
        var point := T.CodePoint(number);
        if point.None? {
          return Err(T.PointFault(number));
        }
        pos := pos + width;
        return Ok(point.value);
      }
      return Err(T.BadEscape);
    }

    method ParseLiteralString() returns (r: Result<string, Fault>)
      requires Valid()
      modifies `pos
      ensures Agrees(r, T.LiteralString(old(Rest())))
    {
      if "'''" <= text[pos..] {
        return Err(T.Unsupported);
      }
      var quote := Expect('\'');
      if quote.Err? {
        return Err(quote.error);
      }
      r := ParseLiteralBody();
    }

    /** The characters of a literal string after its opening quote. */
    method ParseLiteralBody() returns (r: Result<string, Fault>)
      requires Valid()
      modifies `pos
      ensures Agrees(r, T.LiteralBody(old(Rest())))
    {
      ghost var start := Rest();
      var from, end := pos, pos;
      T.PushNothing(T.LiteralBody(start));
      assert text[from..end] == "";
      while end < |text| && text[end] != '\'' && text[end] != '\r' && text[end] != '\n'
        invariant pos == from <= end <= |text|
        invariant T.LiteralBody(start) == T.Push(text[from..end], T.LiteralBody(text[end..]))
      {
        LiteralStep(text, from, end);
        end := end + 1;
      }
      LiteralEnds(text, from, end);
      if end >= |text| || text[end] != '\'' {
        return Err(T.Unterminated);
      }
      pos := end + 1;
      return Ok(text[from..end]);
    }

    method ParseValue() returns (r: Result<Value, Fault>)
      requires Valid()
      modifies `pos
      ensures Agrees(r, V.ReadValue(old(Rest())))
      decreases |text| - pos, 2
    {
      if AtEnd() {
        return Err(T.Unexpected);
      }
      var c := text[pos];
      if c == '"' {
        var s := ParseBasicString();
        return if s.Ok? then Ok(T.Str(s.value)) else Err(s.error);
      }
      if c == '\'' {
        var s := ParseLiteralString();
        return if s.Ok? then Ok(T.Str(s.value)) else Err(s.error);
      }
      if c == '[' {
        var items := ParseArray();
        return if items.Ok? then Ok(T.Array(items.value)) else Err(items.error);
      }
      if c == '{' {
        r := ParseInlineTable();
        return;
      }
      var n := T.TokenLength(text[pos..]);
      if n == 0 {
        return Err(T.Unexpected);
      }
      var token := text[pos..pos + n];
      assert text[pos..][..n] == token && text[pos..][n..] == text[pos + n..];
      pos := pos + n;
      return T.Scalar(token);
    }

    /** An array after its opening bracket has been seen. */
    method ParseArray() returns (r: Result<seq<Value>, Fault>)
      requires Valid() && pos < |text| && text[pos] == '['
      modifies `pos
      ensures Agrees(r, V.ReadItems(old(Rest())[1..]))
      decreases |text| - pos, 0
    {
      assert text[pos..][1..] == text[pos + 1..];
      pos := pos + 1;
      ghost var start := Rest();
      var values: seq<Value> := [];
      AfterNoItems(V.ReadItems(start));
      while true
        invariant Valid() && pos > old(pos)
        invariant V.ReadItems(start) == AfterItems(values, V.ReadItems(Rest()))
        decreases |text| - pos
      {
        ItemsByPiece(Rest());
        var piece := ParseItem();
        if piece.Err? {
          return Err(piece.error);
        }
        match piece.value {
          case Close =>
            assert values + [] == values;
            return Ok(values);
          case Last(v) =>
            return Ok(values + [v]);
          case More(v) =>
            AfterItemsStep(values, v, V.ReadItems(Rest()));
            values := values + [v];
        }
      }
    }

    /** One turn of the array loop. */
    method ParseItem() returns (r: Result<Piece, Fault>)
      requires Valid()
      modifies `pos
      ensures Agrees(r, ReadPiece(old(Rest())))
      ensures r.Ok? ==> pos > old(pos)
      decreases |text| - pos, 3
    {
      SkipBlanks();
      if pos < |text| && text[pos] == ']' {
        assert text[pos..][1..] == text[pos + 1..];
        pos := pos + 1;
        return Ok(Close);
      }
      var v := ParseValue();
      if v.Err? {
        return Err(v.error);
      }
      SkipBlanks();
      if pos < |text| && (text[pos] == ',' || text[pos] == ']') {
        var more := text[pos] == ',';
        assert text[pos..][1..] == text[pos + 1..];
        pos := pos + 1;
        return Ok(if more then More(v.value) else Last(v.value));
      }
      return Err(T.Unexpected);
    }

    /** One binding of an inline table, and of the document. */
    method ParseBinding() returns (r: Result<(seq<string>, Value), Fault>)
      requires Valid()
      modifies `pos
      ensures Agrees(r, V.ReadBinding(old(Rest())))
      decreases |text| - pos, 3
    {
      ghost var before := pos;
      var path := ParseKeyPath();
      if path.Err? {
        return Err(path.error);
      }
      SkipSpaces();
      var equals := Expect('=');
      if equals.Err? {
        return Err(equals.error);
      }
      SkipSpaces();
      var v := ParseValue();
      if v.Err? {
        return Err(v.error);
      }
      return Ok((path.value, v.value));
    }

    method ParseInlineTable() returns (r: Result<Value, Fault>)
      requires Valid() && pos < |text| && text[pos] == '{'
      modifies `pos
      ensures Agrees(r, V.ReadValue(old(Rest())))
      decreases |text| - pos, 0
    {
      ghost var start := Rest();
      assert text[pos..][1..] == text[pos + 1..];
      pos := pos + 1;
      var table: Value := T.Table([], []);
      SkipSpaces();
      if pos < |text| && text[pos] == '}' {
        assert text[pos..][1..] == text[pos + 1..];
        pos := pos + 1;
        return Ok(table);
      }
      while true
        invariant Valid() && pos > old(pos)
        invariant table.Table? && V.WellFormed(table)
        invariant V.ReadValue(start) == V.ReadPairs(Rest(), table)
        decreases |text| - pos
      {
        PairsByStep(Rest(), table);
        var step := ParsePair(table);
        if step.Err? {
          return Err(step.error);
        }
        table := step.value.0;
        if !step.value.1 {
          return Ok(table);
        }
      }
    }

    /** One turn of the inline table loop: the table with one more binding, and whether more follow. */
    method ParsePair(table: Value) returns (r: Result<(Value, bool), Fault>)
      requires Valid() && table.Table? && V.WellFormed(table)
      modifies `pos
      ensures Agrees(r, ReadPair(old(Rest()), table))
      ensures r.Ok? ==> pos > old(pos)
      decreases |text| - pos, 4
    {
      SkipSpaces();
      var binding := ParseBinding();
      if binding.Err? {
        return Err(binding.error);
      }
      var stored := V.Assign(table, binding.value.0, binding.value.1);
      if stored.Err? {
        return Err(stored.error);
      }
      SkipSpaces();
      if pos < |text| && (text[pos] == ',' || text[pos] == '}') {
        var more := text[pos] == ',';
        assert text[pos..][1..] == text[pos + 1..];
        pos := pos + 1;
        return Ok((stored.value, more));
      }
      return Err(T.Unexpected);
    }

    /** An assignment into the current table: the intermediate tables are made on the way. */
    method Assign(path: seq<string>, v: Value) returns (r: Result<(), Fault>)
      requires path != [] && current < |store| && store[current].Dict?
      modifies `store
      ensures r.Ok? ==> R.AssignAt(old(store), current, path, v) == Ok(store)
      ensures r.Err? ==> R.AssignAt(old(store), current, path, v) == Err(r.error)
    {
      ghost var before := store;
      var target: nat := current;
      var i := 0;
      while i < |path| - 1
        invariant 0 <= i < |path|
        invariant target < |store| && store[target].Dict?
        invariant R.AssignAt(before, current, path, v) == R.AssignAt(store, target, path[i..], v)
      {
        assert path[i..][1..] == path[i + 1..];
        var child := R.Slot(store[target], path[i]);
        if child.None? {
          var made := |store|;
          store := R.WithTable(store, target, path[i]);
          target := made;
        } else if !R.IsDict(store, child.value) {
          return Err(T.NotATable);
        } else {
          target := child.value.address;
        }
        i := i + 1;
      }
      if R.Slot(store[target], path[i]).Some? {
        return Err(T.DuplicateKey);
      }
      var (installed, ref) := Install(store, v);
      store := WithKey(installed, target, path[i], ref);
      return Ok(());
    }

    method OpenTable(path: seq<string>, isArray: bool) returns (r: Result<(), Fault>)
      requires path != [] && store != [] && store[0].Dict?
      modifies `store, `current, `explicitTables, `arrayTables
      ensures r.Ok? ==> R.OpenTable(old(Document()), path, isArray) == Ok(Document())
      ensures r.Err? ==> R.OpenTable(old(Document()), path, isArray) == Err(r.error)
    {
      ghost var d := Document();
      var walked := Walk(path);
      if walked.Err? {
        return Err(walked.error);
      }
      var container := walked.value;
      var name := path[|path| - 1];
      var existing := R.Slot(store[container], name);
      if isArray {
        if existing.None? {
          current := |store|;
          store := WithKey(store + [Dict([], []), List([Ptr(|store|)])], container, name, Ptr(|store| + 1));
          arrayTables := arrayTables + {path};
        } else if R.IsList(store, existing.value) && path in arrayTables {
          current := |store|;
          store := WithItem(store + [Dict([], [])], existing.value.address, Ptr(|store|));
        } else {
          return Err(T.Redefined);
        }
      } else {
        if path in explicitTables || path in arrayTables {
          return Err(T.Redefined);
        }
        if existing.None? {
          current := |store|;
          store := R.WithTable(store, container, name);
        } else if R.IsDict(store, existing.value) {
          current := existing.value.address;
        } else {
          return Err(T.Redefined);
        }
        explicitTables := explicitTables + {path};
      }
      return Ok(());
    }

    /** The loop of `_open_table` over all parts but the last. */
    method Walk(path: seq<string>) returns (r: Result<nat, Fault>)
      requires path != [] && store != [] && store[0].Dict?
      modifies `store
      ensures r.Ok? ==> R.Descend(old(store), arrayTables, [], 0, path[..|path| - 1]) == Ok((store, r.value))
      ensures r.Err? ==> R.Descend(old(store), arrayTables, [], 0, path[..|path| - 1]) == Err(r.error)
      ensures r.Ok? ==> r.value < |store| && store[r.value].Dict?
    {
      ghost var before := store;
      var container: nat := 0;
      var parts := path[..|path| - 1];
      var i := 0;
      while i < |parts|
        invariant 0 <= i <= |parts|
        invariant container < |store| && store[container].Dict?
        invariant R.Descend(before, arrayTables, [], 0, parts) ==
                  R.Descend(store, arrayTables, path[..i], container, parts[i..])
      {
        var here := path[..i + 1];
        assert here == path[..i] + [parts[i..][0]] && parts[i..][1..] == parts[i + 1..];
        var child := R.Slot(store[container], parts[i]);
        if child.None? {
          var made := |store|;
          store := R.WithTable(store, container, parts[i]);
          container := made;
        } else if R.IsList(store, child.value) {
          if here !in arrayTables {
            return Err(T.NotATable);
          }
          var last := R.LastTable(store, store[child.value.address]);
          if last.None? {
            return Err(T.Crash);
          }
          container := last.value;
        } else if !R.IsDict(store, child.value) {
          return Err(T.NotATable);
        } else {
          container := child.value.address;
        }
        i := i + 1;
      }
      return Ok(container);
    }

    method ParseHeader() returns (r: Result<(seq<string>, bool), Fault>)
      requires Valid() && pos < |text| && text[pos] == '['
      modifies `pos
      ensures match L.ReadHeader(old(Rest()))
              case Got(stmt, rest) => Valid() && r == Ok((stmt.path, stmt.isArray)) && Rest() == rest
              case Fail(f) => Valid() && r == Err(f)
    {
      var isArray := "[[" <= text[pos..];
      assert isArray ==> text[pos..][2..] == text[pos + 2..];
      assert text[pos..][1..] == text[pos + 1..];
      pos := pos + if isArray then 2 else 1;
      SkipSpaces();
      var path := ParseKeyPath();
      if path.Err? {
        return Err(path.error);
      }
      var closed := CloseHeader(isArray);
      if closed.Err? {
        return Err(closed.error);
      }
      return Ok((path.value, isArray));
    }

    method CloseHeader(isArray: bool) returns (r: Result<(), Fault>)
      requires Valid()
      modifies `pos
      ensures Agrees(r, HeaderEnd(isArray, old(Rest())))
    {
      SkipSpaces();
      if !isArray {
        r := Expect(']');
        return;
      }
      if !("]]" <= text[pos..]) {
        return Err(T.Unexpected);
      }
      assert text[pos..][2..] == text[pos + 2..];
      pos := pos + 2;
      return Ok(());
    }

    /** The main loop: the whole text, or its first fault. */
    method Parse() returns (r: Result<(), Fault>)
      requires Valid() && pos == 0 && Document() == EMPTY
      modifies this
      ensures r.Ok? ==> L.Loads(text) == Ok(Document())
      ensures r.Err? ==> L.Loads(text) == Err(r.error)
    {
      assert text[0..] == text;
      while true
        invariant Valid() && R.Runnable(Document())
        invariant L.Loads(text) == L.Load(Rest(), Document())
        decreases |text| - pos
      {
        SkipBlanks();
        if AtEnd() {
          return Ok(());
        }
        var done := ParseStatement();
        if done.Err? {
          return Err(done.error);
        }
      }
    }

    method ParseStatement() returns (r: Result<(), Fault>)
      requires Valid() && R.Runnable(Document()) && pos < |text|
      requires T.SkipBlanks(Rest()) == Rest()
      modifies this
      ensures r.Ok? ==> Valid() && pos > old(pos) && R.Runnable(Document())
      ensures r.Ok? ==> L.Load(old(Rest()), old(Document())) == L.Load(Rest(), Document())
      ensures r.Err? ==> L.Load(old(Rest()), old(Document())) == Err(r.error)
    {
      if text[pos] == '[' {
        var header := ParseHeader();
        if header.Err? {
          return Err(header.error);
        }
        var table := OpenTable(header.value.0, header.value.1);
        if table.Err? {
          return table;
        }
      } else {
        var binding := ParseBinding();
        if binding.Err? {
          return Err(binding.error);
        }
        var stored := Assign(binding.value.0, binding.value.1);
        if stored.Err? {
          return stored;
        }
      }
      r := EndOfStatement();
    }
  }
}
