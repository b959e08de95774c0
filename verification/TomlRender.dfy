/**
  Rendering: every value of strings, integers, booleans, arrays and inline tables has a tree that means it, so its
  text is read back as that value; and a table written line by line is loaded back as that table.
 */
module TomlRender {
  import opened Wrappers
  import opened TomlText
  import opened TomlValue
  import opened TomlDocument
  import opened TomlLoad
  import opened TomlMeaning
  import opened TomlScalar
  import TomlCrash
  import opened TomlSpec
  import opened TomlSyntax

  // ---------------------------------------------------------------------------------
  // Trees of values
  // ---------------------------------------------------------------------------------

  function PieceOf(c: char): (p: Piece)
    ensures PieceFits(p) && p.c == c
  {
    if c == '"' || c == '\\' || c == '\n' || c == '\r' then Named(c) else Raw(c)
  }

  /** Every character can be written by the digits of its code point, in four digits if they suffice, or in eight. */
  lemma CharIsCoded(c: char, upper: bool)
    ensures c as int < 0x1_0000 ==> PieceFits(Coded(c, Hex(c as int, 4, upper)))
    ensures PieceFits(Coded(c, Hex(c as int, 8, upper)))
  {
    Powers();
    if c as int < 0x1_0000 { HexValue(c as int, 4, upper); }
    HexValue(c as int, 8, upper);
  }

  function Quoted(text: string): (n: Name)
    ensures NameFits(n) && !n.Bare? && NameText(n) == text
  {
    var ps := seq(|text|, i requires 0 <= i < |text| => PieceOf(text[i]));
    assert TextOf(ps) == text;
    Basic(ps)
  }

  function IntToken(n: int): (token: string)
    ensures TokenFits(token) && Scalar(token) == Ok(Int(n))
  {
    var sign, m := if n < 0 then Minus else Unmarked, if n < 0 then -n else n;
    DecimalNumber(sign, m, []);
    IntTokenFits(sign, m);
    SignText(sign) + Spaced(Numeral(m, 10, false), [])
  }

  lemma IntTokenFits(sign: Sign, n: nat)
    ensures TokenFits(SignText(sign) + Spaced(Numeral(n, 10, false), []))
  {
    NumeralValue(n, 10, false);
    assert n == 0 ==> Numeral(n, 10, false) == "0";
    var r := Run(Numeral(n, 10, false), []);
    WholeRun(r);
    var token, k := SignText(sign) + RunText(r), |SignText(sign)|;
    forall i | 0 <= i < |token| ensures IsRunChar(token[i]) || token[i] == '+' || token[i] == '-' {
      if i >= k { assert token[i] == RunText(r)[i - k] && RunText(r)[i - k] in RunText(r); }
    }
    NumberFits(token);
  }

  lemma NumberFits(token: string)
    requires token != "" && forall i | 0 <= i < |token| :: IsRunChar(token[i]) || token[i] == '+' || token[i] == '-'
    ensures TokenFits(token)
  {
    forall i | 0 <= i < |token| ensures !EndsToken(token[i]) { assert IsRunChar(token[i]) || token[i] == '+' || token[i] == '-'; }
  }

  /** Values built from strings, integers, booleans, arrays and inline tables. */
  predicate Renderable(v: Value) {
    match v
    case Float(_) => false
    case Array(items) => forall i | 0 <= i < |items| :: Renderable(items[i])
    case Table(keys, values) => |keys| == |values| && forall i | 0 <= i < |values| :: Renderable(values[i])
    case _ => true
  }

  function BoolTree(b: bool): (n: Node)
    ensures NodeFits(n) && Meaning(n) == Ok(Bool(b))
  {
    assert "true"[0] == 't' && "true"[1] == 'r' && "true"[2] == 'u' && "true"[3] == 'e';
    assert "false"[0] == 'f' && "false"[1] == 'a' && "false"[2] == 'l' && "false"[3] == 's' && "false"[4] == 'e';
    Token(if b then "true" else "false")
  }

  function Tree(v: Value): (n: Node)
    requires Renderable(v)
    ensures NodeFits(n)
    decreases v, 1
  {
    match v
    case Str(text) => Quote(Quoted(text))
    case Int(n) => Token(IntToken(n))
    case Bool(b) => BoolTree(b)
    case Array(items) => Node.List(ItemTree("", items))
    case Table(keys, values) => if keys == [] then Empty("") else Inline(PairTree("", keys, values))
  }

  function ItemTree(gap: string, items: seq<Value>): (t: Items)
    requires IsGap(gap) && forall i | 0 <= i < |items| :: Renderable(items[i])
    ensures ItemsFit(t)
    decreases items, 0
  {
    if items == [] then NoItem(gap)
    else if |items| == 1 then LastItem(gap, Tree(items[0]), "")
    else Item(gap, Tree(items[0]), "", ItemTree(" ", items[1..]))
  }

  function PairTree(pad: string, keys: seq<string>, values: seq<Value>): (t: Pairs)
    requires IsPad(pad) && |keys| == |values| && keys != [] && forall i | 0 <= i < |values| :: Renderable(values[i])
    ensures PairsFit(t)
    decreases values, 0
  {
    if |keys| == 1 then LastPair(pad, One(Quoted(keys[0])), " ", " ", Tree(values[0]), "")
    else Pair(pad, One(Quoted(keys[0])), " ", " ", Tree(values[0]), "", PairTree(" ", keys[1..], values[1..]))
  }

  lemma {:induction false} TreeMeans(v: Value)
    requires Renderable(v) && WellFormed(v)
    ensures Meaning(Tree(v)) == Ok(v)
    decreases v, 1
  {
    match v
    case Str(_) =>
    case Int(_) =>
    case Bool(_) =>
    case Array(items) => ItemTreeMeans("", items);
    case Table(keys, values) => TableTreeMeans(keys, values);
  }

  lemma {:induction false} TableTreeMeans(keys: seq<string>, values: seq<Value>)
    requires Renderable(Table(keys, values)) && WellFormed(Table(keys, values))
    ensures Meaning(Tree(Table(keys, values))) == Ok(Table(keys, values))
    decreases Table(keys, values), 0
  {
    if keys == [] {
      assert values == [];
    } else {
      PairTreeSpells(keys, values);
    }
  }

  lemma {:induction false} PairTreeSpells(keys: seq<string>, values: seq<Value>)
    requires |keys| == |values| && keys != [] && WellFormed(Table(keys, values))
    requires forall i | 0 <= i < |values| :: Renderable(values[i])
    ensures PairsMean(PairTree("", keys, values), Table([], [])) == Ok(Table(keys, values))
    decreases values, 1
  {
    NothingBefore(keys, values);
    PairTreeMeans("", keys, values, Table([], []));
  }

  lemma NothingBefore(keys: seq<string>, values: seq<Value>)
    ensures Table([], []).keys + keys == keys && Table([], []).values + values == values
  {
  }

  lemma {:induction false} ItemTreeMeans(gap: string, items: seq<Value>)
    requires IsGap(gap) && forall i | 0 <= i < |items| :: Renderable(items[i]) && WellFormed(items[i])
    ensures ItemsMean(ItemTree(gap, items)) == Ok(items)
    decreases items, 0
  {
    if items != [] {
      TreeMeans(items[0]);
      if |items| == 1 {
        assert items == [items[0]];
      } else {
        ItemTreeMeans(" ", items[1..]);
        assert items == [items[0]] + items[1..];
      }
    }
  }

  lemma {:induction false} PairTreeMeans(pad: string, keys: seq<string>, values: seq<Value>, table: Value)
    requires IsPad(pad) && |keys| == |values| && keys != []
    requires forall i | 0 <= i < |values| :: Renderable(values[i]) && WellFormed(values[i])
    requires table.Table? && WellFormed(table) && WellFormed(Table(table.keys + keys, table.values + values))
    ensures PairsMean(PairTree(pad, keys, values), table) == Ok(Table(table.keys + keys, table.values + values))
    decreases values, 0
  {
    TreeMeans(values[0]);
    AssignFresh(table, keys, values);
    if |keys| == 1 {
      assert keys == [keys[0]] && values == [values[0]];
    } else {
      Regrouped(table, keys, values);
      PairTreeMeans(" ", keys[1..], values[1..], Table(table.keys + [keys[0]], table.values + [values[0]]));
    }
  }

  lemma Regrouped(table: Value, keys: seq<string>, values: seq<Value>)
    requires table.Table? && keys != [] && values != []
    ensures table.keys + [keys[0]] + keys[1..] == table.keys + keys
    ensures table.values + [values[0]] + values[1..] == table.values + values
  {
  }

  lemma AssignFresh(table: Value, keys: seq<string>, values: seq<Value>)
    requires |keys| == |values| && keys != [] && table.Table? && WellFormed(table) && WellFormed(values[0])
    requires WellFormed(Table(table.keys + keys, table.values + values))
    ensures Assign(table, [keys[0]], values[0]) == Ok(Table(table.keys + [keys[0]], table.values + [values[0]]))
  {
    var all := table.keys + keys;
    assert all[|table.keys|] == keys[0];
    assert keys[0] !in table.keys by {
      forall i | 0 <= i < |table.keys| ensures table.keys[i] != keys[0] { assert all[i] == table.keys[i]; }
    }
  }

  /** The rendering of every such value, before any delimiter, is read back exactly. */
  lemma ReadRender(v: Value, rest: string)
    requires Renderable(v) && WellFormed(v) && Delimited(rest)
    ensures ReadValue(WriteNode(Tree(v), rest)) == Got(v, rest)
  {
    TreeMeans(v);
    NodeRead(Tree(v), rest);
  }

  // ---------------------------------------------------------------------------------
  // Tables, one line per key
  // ---------------------------------------------------------------------------------

  function Bindings(keys: seq<string>, values: seq<Value>): (stmts: seq<Stmt>)
    requires |keys| == |values|
    ensures |stmts| == |keys| && forall i | 0 <= i < |keys| :: stmts[i] == KeyValue([keys[i]], values[i])
  {
    seq(|keys|, i requires 0 <= i < |keys| => KeyValue([keys[i]], values[i]))
  }

  lemma BindingsCons(keys: seq<string>, values: seq<Value>)
    requires |keys| == |values| && keys != []
    ensures Bindings(keys, values) == [KeyValue([keys[0]], values[0])] + Bindings(keys[1..], values[1..])
  {
  }

  /** The bindings of a table, key by key, make up the table. */
  lemma {:induction false} BindingsMakeUp(m: Draft, keys: seq<string>, values: seq<Value>)
    requires Editable(m) && m.base == [] && |keys| == |values|
    requires WellFormed(Table(m.root.keys + keys, m.root.values + values))
    requires forall i | 0 <= i < |values| :: WellFormed(values[i])
    ensures Legal(Bindings(keys, values))
    ensures Performed(m, Bindings(keys, values)) == Ok(m.(root := Table(m.root.keys + keys, m.root.values + values)))
    decreases |keys|
  {
    var t := m.root;
    if keys == [] {
      assert t.keys + keys == t.keys && t.values + values == t.values;
    } else {
      AssignFresh(t, keys, values);
      Regrouped(t, keys, values);
      BindingsCons(keys, values);
      var next := m.(root := Table(t.keys + [keys[0]], t.values + [values[0]]));
      assert Perform(m, KeyValue([keys[0]], values[0])) == Ok(next);
      BindingsMakeUp(next, keys[1..], values[1..]);
      assert Bindings(keys, values)[1..] == Bindings(keys[1..], values[1..]);
    }
  }

  /** Every text that is read as the bindings of a table is loaded as that table, key for key. */
  lemma LoadsTable(text: string, keys: seq<string>, values: seq<Value>)
    requires |keys| == |values| && WellFormed(Table(keys, values))
    requires TomlCrash.Statements(text) == TomlCrash.Reading(Bindings(keys, values), None)
    ensures Loads(text).Ok? && Spells(Loads(text).value.store, Ptr(0), Table(keys, values))
  {
    NothingBefore(keys, values);
    BindingsMakeUp(BLANK, keys, values);
    LoadMeans(text);
  }

  /** One line per key. */
  function TableText(keys: seq<string>, values: seq<Value>): (t: Text)
    requires |keys| == |values| && forall i | 0 <= i < |values| :: Renderable(values[i])
    ensures TextFits(t)
  {
    if keys == [] then Done("", Margin("", None))
    else
      var line := Binding(One(Quoted(keys[0])), " ", " ", Tree(values[0]));
      More("", line, Margin("", None), '\n', TableText(keys[1..], values[1..]))
  }

  lemma {:induction false} TableTextContents(keys: seq<string>, values: seq<Value>)
    requires |keys| == |values| && forall i | 0 <= i < |values| :: Renderable(values[i]) && WellFormed(values[i])
    ensures Contents(TableText(keys, values)) == TomlCrash.Reading(Bindings(keys, values), None)
  {
    if keys != [] {
      TreeMeans(values[0]);
      TableTextContents(keys[1..], values[1..]);
      BindingsCons(keys, values);
    }
  }

  /** For every table of renderable values, loading its text gives a document that is that table. */
  lemma LoadsRenderedTable(keys: seq<string>, values: seq<Value>)
    requires Renderable(Table(keys, values)) && WellFormed(Table(keys, values))
    ensures var text := WriteText(TableText(keys, values));
            Loads(text).Ok? && Spells(Loads(text).value.store, Ptr(0), Table(keys, values))
  {
    TableTextContents(keys, values);
    TextRead(TableText(keys, values));
    LoadsTable(WriteText(TableText(keys, values)), keys, values);
  }
}
