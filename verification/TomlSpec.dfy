/**
  What scripts/toml_reader.py computes, end to end and without its parser or its objects: a text is loaded as a
  table if and only if it is some document, in any spelling and layout, whose statements make up that table.
 */
module TomlSpec {
  import opened Wrappers
  import opened TomlText
  import opened TomlValue
  import opened TomlDocument
  import opened TomlRun
  import opened TomlLoad
  import opened TomlMeaning
  import TomlCrash
  import G = TomlGrammar
  import R = TomlRefine
  import S = TomlSyntax

  lemma {:induction false} StatementsAreLegal(s: string)
    ensures Legal(TomlCrash.Statements(s).stmts)
    decreases |s|
  {
    var t := SkipBlanks(s);
    if t != "" && ReadStmt(t).Got? && EndOfStatement(ReadStmt(t).rest).Got? {
      StatementsAreLegal(EndOfStatement(ReadStmt(t).rest).rest);
    }
  }

  /** The table the statements of a text make up, or why they do not. */
  ghost function Summed(r: TomlCrash.Reading): Result<Value, Fault>
    requires Legal(r.stmts)
  {
    match Performed(BLANK, r.stmts)
    case Err(f) => Err(f)
    case Ok(m) => if r.fault.Some? then Err(r.fault.value) else Ok(m.root)
  }

  /** Loading a text, for every text: the table its statements make up, spelled by objects, or their first fault. */
  lemma LoadMeans(text: string)
    ensures Legal(TomlCrash.Statements(text).stmts)
    ensures var means := Summed(TomlCrash.Statements(text));
            && (means.Err? ==> Loads(text) == Err(means.error))
            && (means.Ok? ==> Loads(text).Ok? && Spells(Loads(text).value.store, Ptr(0), means.value))
  {
    var r := TomlCrash.Statements(text);
    StatementsAreLegal(text);
    TomlCrash.LoadIsReadThenRun(text, EMPTY);
    R.BlankRefines();
    R.RunRefines(EMPTY, BLANK, r.stmts);
    if Performed(BLANK, r.stmts).Ok? {
      R.NeatSpells(RunAll(EMPTY, r.stmts).value.store, Ptr(0), Performed(BLANK, r.stmts).value.root);
    }
  }

  /** Objects spell one value. */
  lemma {:induction false} SpellsOne(s: Store, r: Ref, v: Value, w: Value)
    requires Spells(s, r, v) && Spells(s, r, w)
    ensures v == w
    decreases v
  {
    match v
    case Array(items) =>
      forall i | 0 <= i < |items| ensures items[i] == w.items[i] {
        SpellsOne(s, s[r.address].slots[i], items[i], w.items[i]);
      }
    case Table(_, values) =>
      forall i | 0 <= i < |values| ensures values[i] == w.values[i] {
        SpellsOne(s, s[r.address].slots[i], values[i], w.values[i]);
      }
    case _ =>
  }

  /** The document is written like the text and makes up the table. */
  ghost predicate MakesUp(t: S.Text, text: string, v: Value) {
    && S.TextFits(t) && S.WriteText(t) == text && S.Contents(t).fault.None?
    && Legal(S.Contents(t).stmts) && Summed(S.Contents(t)) == Ok(v)
  }

  /** The whole reader: a text is loaded as a table if and only if some document written like it makes up the table. */
  lemma LoadsIff(text: string, v: Value)
    ensures Loads(text).Ok? && Spells(Loads(text).value.store, Ptr(0), v) <==> exists t :: MakesUp(t, text, v)
  {
    LoadMeans(text);
    var r := TomlCrash.Statements(text);
    if Loads(text).Ok? && Spells(Loads(text).value.store, Ptr(0), v) {
      SpellsOne(Loads(text).value.store, Ptr(0), v, Summed(r).value);
      var t := G.TextFrom(text);
      assert MakesUp(t, text, v);
    }
    if t :| MakesUp(t, text, v) {
      S.TextRead(t);
    }
  }
}
