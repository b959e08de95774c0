/**
  Shell quoting of a command vector, `shell_command_text` and `shell_command_token` in
  src/cli.rs, against a reference tokeniser for the quoting rules it relies on: sections
  2.2.1 (escape character), 2.2.2 (single-quotes) and 2.3 (token recognition) of the
  POSIX.1-2017 Shell Command Language.  Text that needs any other rule (operators, expansions,
  double-quotes) is not tokenised.
 */
module ShellQuote {
  import opened Wrappers

  const NUL: char := '\0'

  /** Characters with no meaning to the shell anywhere outside quotes. */
  predicate Plain(c: char) {
    && c != NUL && c != ' ' && c != '\t' && c != '\n' && c != '\'' && c != '\\' && c != '"'
    && c != '|' && c != '&' && c != ';' && c != '<' && c != '>' && c != '(' && c != ')'
    && c != '$' && c != '`' && c != '*' && c != '?' && c != '[' && c != '#' && c != '~'
  }

  /** Where a tilde can start a tilde-prefix inside a word: after `=` or `:`. */
  predicate BeforeTilde(c: char) {
    c == '=' || c == ':'
  }

  /**
    The character at `i` is part of the word as it stands: `#` starts a comment and `~` a
    tilde-prefix only in certain places.
   */
  predicate Ordinary(t: string, i: nat)
    requires i < |t|
  {
    || Plain(t[i])
    || (i > 0 && t[i] == '#')
    || (i > 0 && t[i] == '~' && !BeforeTilde(t[i - 1]))
  }

  /** The same for the next character of a scan. */
  predicate Continues(c: char, mode: Mode, word: string) {
    || Plain(c)
    || (mode == Word && c == '#')
    || (mode == Word && c == '~' && (word == "" || !BeforeTilde(word[|word| - 1])))
  }

  predicate NulFree(s: string) {
    NUL !in s
  }

  function Replaced(t: string): string {
    if t == "" then "" else (if t[0] == '\'' then "'\\''" else [t[0]]) + Replaced(t[1..])
  }

  function ShellCommandToken(t: string): string {
    "'" + Replaced(t) + "'"
  }

  function Joined(tokens: seq<string>): string {
    if tokens == [] then ""
    else if |tokens| == 1 then ShellCommandToken(tokens[0])
    else ShellCommandToken(tokens[0]) + " " + Joined(tokens[1..])
  }

  function ShellCommandText(command: seq<string>): string {
    if |command| == 1 then command[0] else Joined(command)
  }

  /** Between words, inside a word, or inside single quotes of a word. */
  datatype Mode = Between | Word | Quoted

  function Scan(s: string, mode: Mode, word: string, done: seq<string>): Option<seq<string>> {
    if s == "" then
      match mode
      case Between => Some(done)
      case Word => Some(done + [word])
      case Quoted => None
    else if s[0] == NUL then None
    else if mode == Quoted then
      if s[0] == '\'' then Scan(s[1..], Word, word, done) else Scan(s[1..], Quoted, word + [s[0]], done)
    else if s[0] == ' ' || s[0] == '\t' then
      Scan(s[1..], Between, "", if mode == Word then done + [word] else done)
    else if s[0] == '\'' then Scan(s[1..], Quoted, word, done)
    else if s[0] == '\\' then
      if |s| == 1 || s[1] == NUL then None
      else if s[1] == '\n' then Scan(s[2..], mode, word, done)
      else Scan(s[2..], Word, word + [s[1]], done)
    else if Continues(s[0], mode, word) then Scan(s[1..], Word, word + [s[0]], done)
    else if s[0] == '#' && NulFree(s) && '\n' !in s then Some(done)
    else None
  }

  function Tokenise(s: string): Option<seq<string>> {
    Scan(s, Between, "", [])
  }

  // ---------------------------------------------------------------------------------
  // Quoted vectors
  // ---------------------------------------------------------------------------------

  lemma {:induction false} ScanReplaced(t: string, rest: string, word: string, done: seq<string>)
    ensures Scan(Replaced(t) + "'" + rest, Quoted, word, done) ==
            if NulFree(t) then Scan(rest, Word, word + t, done) else None
  {
    var s := Replaced(t) + "'" + rest;
    if t == "" {
      assert s == "'" + rest && s[1..] == rest && word + t == word;
    } else {
      var more := Replaced(t[1..]) + "'" + rest;
      ScanReplaced(t[1..], rest, word + [t[0]], done);
      assert word + [t[0]] + t[1..] == word + t;
      assert NulFree(t) <==> t[0] != NUL && NulFree(t[1..]);
      if t[0] == '\'' {
        assert s == "'\\''" + more;
        ScanQuote(more, word, done);
      } else {
        assert s == [t[0]] + more && s[1..] == more;
      }
    }
  }

  /** Closing the quotes, an escaped quote and opening them again adds one quote to the word. */
  lemma ScanQuote(more: string, word: string, done: seq<string>)
    ensures Scan("'\\''" + more, Quoted, word, done) == Scan(more, Quoted, word + "'", done)
  {
    var s := "'\\''" + more;
    var a, b := s[1..], "'" + more;
    assert a == "\\''" + more && a[2..] == b && b[1..] == more;
    assert Scan(b, Word, word + ['\''], done) == Scan(more, Quoted, word + ['\''], done);
    assert Scan(a, Word, word, done) == Scan(b, Word, word + ['\''], done);
  }

  lemma ScanToken(t: string, rest: string, done: seq<string>)
    ensures Scan(ShellCommandToken(t) + rest, Between, "", done) ==
            if NulFree(t) then Scan(rest, Word, t, done) else None
  {
    var s := ShellCommandToken(t) + rest;
    assert s[0] == '\'' && s[1..] == Replaced(t) + "'" + rest;
    ScanReplaced(t, rest, "", done);
    assert "" + t == t;
  }

  lemma ScanFirst(tokens: seq<string>, done: seq<string>)
    requires |tokens| > 1
    ensures Scan(Joined(tokens), Between, "", done) ==
            if NulFree(tokens[0]) then Scan(Joined(tokens[1..]), Between, "", done + [tokens[0]]) else None
  {
    var t, more := tokens[0], " " + Joined(tokens[1..]);
    assert Joined(tokens) == ShellCommandToken(t) + more;
    ScanToken(t, more, done);
    assert more[0] == ' ' && more[1..] == Joined(tokens[1..]);
  }

  predicate AllNulFree(tokens: seq<string>) {
    forall t | t in tokens :: NulFree(t)
  }

  lemma AllNulFreeCons(t: string, more: seq<string>)
    ensures AllNulFree([t] + more) <==> NulFree(t) && AllNulFree(more)
  {
    assert t in [t] + more && forall u | u in more :: u in [t] + more;
  }

  lemma ScanOne(t: string, done: seq<string>)
    ensures Scan(Joined([t]), Between, "", done) == if NulFree(t) then Some(done + [t]) else None
  {
    assert ShellCommandToken(t) + "" == Joined([t]);
    ScanToken(t, "", done);
  }

  lemma {:induction false} ScanJoined(tokens: seq<string>, done: seq<string>)
    ensures Scan(Joined(tokens), Between, "", done) == if AllNulFree(tokens) then Some(done + tokens) else None
  {
    if tokens == [] {
      assert done + tokens == done;
    } else {
      var t, more := tokens[0], tokens[1..];
      assert tokens == [t] + more;
      AllNulFreeCons(t, more);
      if more == [] {
        assert tokens == [t];
        ScanOne(t, done);
      } else {
        ScanFirst(tokens, done);
        ScanJoined(more, done + [t]);
        assert done + [t] + more == done + tokens;
      }
    }
  }

  /** Every vector but a single token survives the shell exactly when no token holds a NUL. */
  lemma QuotingRoundTrip(command: seq<string>)
    requires |command| != 1
    ensures Tokenise(ShellCommandText(command)) ==
            if AllNulFree(command) then Some(command) else None
  {
    ScanJoined(command, []);
    assert [] + command == command;
  }

  // ---------------------------------------------------------------------------------
  // A single token is passed on as shell text
  // ---------------------------------------------------------------------------------

  function Length(ts: seq<string>): nat {
    if ts == [] then 0 else |ts[0]| + Length(ts[1..])
  }

  lemma {:induction false} LengthAppend(ts: seq<string>, t: string)
    ensures Length(ts + [t]) == Length(ts) + |t|
  {
    if ts != [] {
      LengthAppend(ts[1..], t);
      assert (ts + [t])[1..] == ts[1..] + [t];
    }
  }

  /** The scan takes every character of `s` into the current word. */
  predicate Literal(s: string, mode: Mode, word: string) {
    s == "" || (Continues(s[0], mode, word) && Literal(s[1..], Word, word + [s[0]]))
  }

  /** Tokenising never yields more characters than it reads, and fewer unless all are literal. */
  lemma {:induction false} ScanShrinks(s: string, mode: Mode, word: string, done: seq<string>)
    requires mode.Between? ==> word == ""
    requires Scan(s, mode, word, done).Some?
    ensures Length(Scan(s, mode, word, done).value) <= Length(done) + |word| + |s|
    ensures !mode.Quoted? && !Literal(s, mode, word) ==>
              Length(Scan(s, mode, word, done).value) < Length(done) + |word| + |s|
    decreases |s|
  {
    LengthAppend(done, word);
    if s == "" {
    } else if mode == Quoted {
      if s[0] == '\'' { ScanShrinks(s[1..], Word, word, done); }
      else { ScanShrinks(s[1..], Quoted, word + [s[0]], done); }
    } else if s[0] == ' ' || s[0] == '\t' {
      ScanShrinks(s[1..], Between, "", if mode == Word then done + [word] else done);
    } else if s[0] == '\'' {
      ScanShrinks(s[1..], Quoted, word, done);
    } else if s[0] == '\\' {
      if s[1] == '\n' { ScanShrinks(s[2..], mode, word, done); }
      else { ScanShrinks(s[2..], Word, word + [s[1]], done); }
    } else if Continues(s[0], mode, word) {
      ScanShrinks(s[1..], Word, word + [s[0]], done);
    }
  }

  lemma {:induction false} ScanLiteral(s: string, word: string, done: seq<string>)
    requires Literal(s, Word, word)
    ensures Scan(s, Word, word, done) == Some(done + [word + s])
  {
    if s == "" {
      assert word + s == word;
    } else {
      ScanLiteral(s[1..], word + [s[0]], done);
      assert word + [s[0]] + s[1..] == word + s;
    }
  }

  lemma {:induction false} LiteralIffOrdinary(t: string, k: nat)
    requires k <= |t|
    ensures Literal(t[k..], if k == 0 then Between else Word, t[..k]) <==> forall i | k <= i < |t| :: Ordinary(t, i)
    decreases |t| - k
  {
    if k < |t| {
      LiteralIffOrdinary(t, k + 1);
      assert t[k..][1..] == t[k + 1..] && t[..k] + [t[k]] == t[..k + 1];
      assert Continues(t[k], if k == 0 then Between else Word, t[..k]) <==> Ordinary(t, k);
    }
  }

  /** A lone token is not quoted, so it survives exactly when it is nonempty and all ordinary. */
  lemma LoneTokenRoundTrip(t: string)
    ensures Tokenise(ShellCommandText([t])) == Some([t]) <==> t != "" && forall i | 0 <= i < |t| :: Ordinary(t, i)
  {
    LiteralIffOrdinary(t, 0);
    assert t[0..] == t && t[..0] == "";
    if t != "" && Literal(t, Between, "") {
      assert [t[0]] + t[1..] == t && "" + [t[0]] == [t[0]];
      ScanLiteral(t[1..], [t[0]], []);
      assert Scan(t, Between, "", []) == Scan(t[1..], Word, "" + [t[0]], []);
      assert [] + [t] == [t];
    } else if t != "" && Scan(t, Between, "", []).Some? {
      ScanShrinks(t, Between, "", []);
      assert Length([t]) == |t|;
    }
  }
}
