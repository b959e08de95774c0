/**
  Values of scripts/toml_reader.py: arrays, inline tables and scalars read by recursive
  descent.  Every reading that succeeds leaves strictly less text, which is what makes the
  descent end.
 */
module TomlValue {
  import opened Wrappers
  import opened TomlText

  // ---------------------------------------------------------------------------------
  // Assignment into an inline table
  // ---------------------------------------------------------------------------------

  /** Position of a key, or the number of keys. */
  function Index(keys: seq<string>, k: string): (i: nat)
    ensures i <= |keys|
    ensures i < |keys| <==> k in keys
    ensures i < |keys| ==> keys[i] == k
    ensures forall j | 0 <= j < i :: keys[j] != k
  {
    if keys == [] || keys[0] == k then 0 else 1 + Index(keys[1..], k)
  }

  /** Keys and values are paired and no key is repeated, in every table of the value. */
  ghost predicate WellFormed(v: Value) {
    match v
    case Array(items) => forall i | 0 <= i < |items| :: WellFormed(items[i])
    case Table(keys, values) =>
      && |keys| == |values|
      && (forall i, j | 0 <= i < j < |keys| :: keys[i] != keys[j])
      && (forall i | 0 <= i < |values| :: WellFormed(values[i]))
    case _ => true
  }

  function Assign(table: Value, path: seq<string>, v: Value): (r: Result<Value, Fault>)
    requires table.Table? && path != []
    requires WellFormed(table) && WellFormed(v)
    ensures r.Ok? ==> r.value.Table? && WellFormed(r.value)
    decreases |path|
  {
    var i := Index(table.keys, path[0]);
    if |path| == 1 then
      if i < |table.keys| then Err(DuplicateKey)
      else Ok(Table(table.keys + path, table.values + [v]))
    else if i == |table.keys| then
      match Assign(Table([], []), path[1..], v)
      case Err(f) => Err(f)
      case Ok(child) => Ok(Table(table.keys + [path[0]], table.values + [child]))
    else if !table.values[i].Table? then Err(NotATable)
    else
      assert WellFormed(table.values[i]);
      match Assign(table.values[i], path[1..], v)
      case Err(f) => Err(f)
      case Ok(child) => Ok(Table(table.keys, table.values[i := child]))
  }

  // ---------------------------------------------------------------------------------
  // Reading
  // ---------------------------------------------------------------------------------

  function PushItem(v: Value, r: Read<seq<Value>>): Read<seq<Value>> {
    match r
    case Got(vs, rest) => Got([v] + vs, rest)
    case Fail(f) => Fail(f)
  }

  ghost predicate AllWellFormed(vs: seq<Value>) {
    forall i | 0 <= i < |vs| :: WellFormed(vs[i])
  }

  function ReadText(r: Read<string>): Read<Value> {
    match r
    case Got(text, rest) => Got(Str(text), rest)
    case Fail(f) => Fail(f)
  }

  function ReadToken(s: string): (r: Read<Value>)
    ensures r.Got? ==> |r.rest| < |s| && WellFormed(r.value)
  {
    var n := TokenLength(s);
    if n == 0 then Fail(Unexpected)
    else
      match Scalar(s[..n])
      case Err(f) => Fail(f)
      case Ok(v) => Got(v, s[n..])
  }

  function ReadValue(s: string): (r: Read<Value>)
    ensures r.Got? ==> |r.rest| < |s| && WellFormed(r.value)
    decreases |s|, 0
  {
    if s == "" then Fail(Unexpected)
    else if s[0] == '"' then ReadText(BasicString(s))
    else if s[0] == '\'' then ReadText(LiteralString(s))
    else if s[0] == '[' then
      match ReadItems(s[1..])
      case Fail(f) => Fail(f)
      case Got(vs, rest) => Got(Array(vs), rest)
    else if s[0] == '{' then
      var t := SkipSpaces(s[1..]);
      if StartsWith(t, '}') then Got(Table([], []), t[1..]) else ReadPairs(t, Table([], []))
    else ReadToken(s)
  }

  /** The items of an array and its closing bracket. */
  function ReadItems(s: string): (r: Read<seq<Value>>)
    ensures r.Got? ==> |r.rest| < |s| && AllWellFormed(r.value)
    decreases |s|, 1
  {
    var t := SkipBlanks(s);
    if StartsWith(t, ']') then Got([], t[1..])
    else
      match ReadValue(t)
      case Fail(f) => Fail(f)
      case Got(v, rest) =>
        var u := SkipBlanks(rest);
        if StartsWith(u, ',') then PushItem(v, ReadItems(u[1..]))
        else if StartsWith(u, ']') then Got([v], u[1..])
        else Fail(Unexpected)
  }

  /** The text after a key: its equals sign and value. */
  function ReadBinding(s: string): (r: Read<(seq<string>, Value)>)
    ensures r.Got? ==> |r.rest| < |s| && r.value.0 != [] && WellFormed(r.value.1)
    decreases |s|, 1
  {
    match KeyPath(s)
    case Fail(f) => Fail(f)
    case Got(path, rest) =>
      match Expect(SkipSpaces(rest), '=')
      case Fail(f) => Fail(f)
      case Got(_, after) =>
        match ReadValue(SkipSpaces(after))
        case Fail(f) => Fail(f)
        case Got(v, left) => Got((path, v), left)
  }

  /** The remaining bindings of an inline table that already holds `table`, and its brace. */
  function ReadPairs(s: string, table: Value): (r: Read<Value>)
    requires table.Table? && WellFormed(table)
    ensures r.Got? ==> |r.rest| < |s| && r.value.Table? && WellFormed(r.value)
    decreases |s|, 2
  {
    match ReadBinding(SkipSpaces(s))
    case Fail(f) => Fail(f)
    case Got(b, rest) =>
      match Assign(table, b.0, b.1)
      case Err(f) => Fail(f)
      case Ok(more) =>
        var u := SkipSpaces(rest);
        if StartsWith(u, ',') then ReadPairs(u[1..], more)
        else if StartsWith(u, '}') then Got(more, u[1..])
        else Fail(Unexpected)
  }
}
