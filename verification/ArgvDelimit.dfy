/**
  Insertion of `--` before the first operand, `delimit_options_before_positionals` in
  src/cli_args.rs: the permissive reading of its output is the strict reading of its input.
 */
module ArgvDelimit {
  import opened Wrappers
  import opened Getopt
  import opened ArgvCollapse
  import opened ArgvNormalize

  const USIZE_MAX: nat := 0xFFFF_FFFF_FFFF_FFFF

  datatype Failure =
    | UnknownShort(flag: char)
    | UnknownLong(name: string)
    | MissingFor(opt: Opt)
    | TooManyValues(limit: nat)

  /** What one option token does to the scan for the first operand. */
  datatype Seen = Fine | Expects(opt: Opt) | Refused(failure: Failure)

  function SeeCluster(f: Flags, hyphens: bool, cs: string): Seen {
    if cs == "" then Fine
    else if cs[0] !in f.shorts then
      if hyphens then Refused(UnknownShort(cs[0])) else SeeCluster(f, hyphens, cs[1..])
    else if cs[0] in f.vals then
      if |cs| == 1 then Expects(Short(cs[0])) else Fine
    else SeeCluster(f, hyphens, cs[1..])
  }

  function SeeToken(f: Flags, hyphens: bool, t: string): Seen
    requires !EndsOptions(t)
  {
    if t[1] == '-' then
      var name := NameOf(t[2..]);
      if name !in f.longs then
        if hyphens then Refused(UnknownLong(name)) else Fine
      else if name in f.longVals && '=' !in t[2..] then Expects(LongName(name))
      else Fine
    else SeeCluster(f, hyphens, t[1..])
  }

  datatype Place = At(index: nat) | Nowhere | Bad(failure: Failure)

  /** The index of the first operand, none before `--`, or the scan's error. */
  function Locate(f: Flags, hyphens: bool, args: seq<string>): (p: Place)
    ensures p.At? ==> p.index < |args| && IsPositionalStart(args[p.index]) && args[p.index] != "--"
  {
    if args == [] || args[0] == "--" then Nowhere
    else if IsPositionalStart(args[0]) then At(0)
    else
      match SeeToken(f, hyphens, args[0])
      case Refused(e) => Bad(e)
      case Fine => Shift(1, Locate(f, hyphens, args[1..]))
      case Expects(o) => if |args| == 1 then Bad(MissingFor(o)) else Shift(2, Locate(f, hyphens, args[2..]))
  }

  function Shift(n: nat, p: Place): Place {
    if p.At? then At(n + p.index) else p
  }

  /** The sum of the positionals' value limits, saturating at the machine word. */
  function PositionalLimit(maxima: seq<nat>): (limit: nat)
    ensures limit <= USIZE_MAX
    ensures limit == 0 <==> forall m | m in maxima :: m == 0
  {
    if maxima == [] then 0
    else
      var init, last := maxima[..|maxima| - 1], maxima[|maxima| - 1];
      assert maxima == init + [last];
      assert last in maxima && forall m | m in init :: m in maxima;
      var sum := PositionalLimit(init) + last;
      if sum > USIZE_MAX then USIZE_MAX else sum
  }

  function DelimitAt(limit: nat, args: seq<string>, k: nat): Result<seq<string>, Failure>
    requires k <= |args|
  {
    if limit == 0 then Ok(args)
    else if |args| - k > limit then Err(TooManyValues(limit))
    else Ok(args[..k] + ["--"] + args[k..])
  }

  function Delimit(f: Flags, hyphens: bool, limit: nat, args: seq<string>): Result<seq<string>, Failure> {
    match Locate(f, hyphens, args)
    case Bad(e) => Err(e)
    case Nowhere => Ok(args)
    case At(k) => DelimitAt(limit, args, k)
  }

  method DelimitOptionsBeforePositionals(f: Flags, hyphens: bool, maxima: seq<nat>, args: seq<string>)
    returns (r: Result<seq<string>, Failure>)
    ensures r == Delimit(f, hyphens, PositionalLimit(maxima), args)
  {
    var expected: Option<Opt> := None;
    var first: Option<nat> := None;
    var index := 0;
    while index < |args|
      invariant 0 <= index <= |args|
      invariant first == None
      invariant Locate(f, hyphens, args) == Shift(index, LocateAfter(f, hyphens, expected, args[index..]))
    {
      var argument := args[index];
      ghost var rest := args[index..];
      assert rest[1..] == args[index + 1..];
      if expected.Some? {
        expected := None;
        index := index + 1;
        continue;
      }
      if argument == "--" {
        break;
      }
      if IsPositionalStart(argument) {
        first := Some(index);
        break;
      }
      var seen := See(f, hyphens, argument);
      match seen {
        case Refused(e) => return Err(e);
        case Fine =>
        case Expects(o) =>
          expected := Some(o);
          if |rest| > 1 { assert rest[2..] == rest[1..][1..]; }
      }
      index := index + 1;
    }
    if expected.Some? {
      return Err(MissingFor(expected.value));
    }
    if first.Some? {
      r := InsertDelimiter(maxima, args, first.value);
      return;
    }
    return Ok(args);
  }

  method InsertDelimiter(maxima: seq<nat>, args: seq<string>, first: nat) returns (r: Result<seq<string>, Failure>)
    requires first <= |args|
    ensures r == DelimitAt(PositionalLimit(maxima), args, first)
  {
    var limit := Sum(maxima);
    if limit == 0 {
      return Ok(args);
    }
    if |args| - first > limit {
      return Err(TooManyValues(limit));
    }
    return Ok(args[..first] + ["--"] + args[first..]);
  }

  /** `Locate` in the loop's state: the next token may be the value of an earlier option. */
  function LocateAfter(f: Flags, hyphens: bool, expected: Option<Opt>, rest: seq<string>): Place {
    match expected
    case None => Locate(f, hyphens, rest)
    case Some(o) => if rest == [] then Bad(MissingFor(o)) else Shift(1, Locate(f, hyphens, rest[1..]))
  }

  method See(f: Flags, hyphens: bool, t: string) returns (seen: Seen)
    requires !EndsOptions(t)
    ensures seen == SeeToken(f, hyphens, t)
  {
    if t[1] == '-' {
      var name := NameOf(t[2..]);
      if name !in f.longs {
        if hyphens {
          return Refused(UnknownLong(name));
        }
        return Fine;
      }
      if name in f.longVals && '=' !in t[2..] {
        return Expects(LongName(name));
      }
      return Fine;
    }
    var i := 1;
    while i < |t|
      invariant 1 <= i <= |t|
      invariant SeeToken(f, hyphens, t) == SeeCluster(f, hyphens, t[i..])
    {
      var flag := t[i];
      assert t[i..][1..] == t[i + 1..];
      i := i + 1;
      if flag !in f.shorts {
        if hyphens {
          return Refused(UnknownShort(flag));
        }
        continue;
      }
      if flag in f.vals {
        if i == |t| {
          return Expects(Short(flag));
        }
        return Fine;
      }
    }
    return Fine;
  }

  method Sum(maxima: seq<nat>) returns (limit: nat)
    ensures limit == PositionalLimit(maxima)
  {
    limit := 0;
    var i := 0;
    while i < |maxima|
      invariant 0 <= i <= |maxima|
      invariant limit == PositionalLimit(maxima[..i])
    {
      assert maxima[..i + 1][..i] == maxima[..i];
      var sum := limit + maxima[i];
      limit := if sum > USIZE_MAX then USIZE_MAX else sum;
      i := i + 1;
    }
    assert maxima[..i] == maxima;
  }

  // ---------------------------------------------------------------------------------
  // The readings
  // ---------------------------------------------------------------------------------

  /** The scan and the strict reading agree on every token the reading can read. */
  lemma {:induction false} SeenAsRead(f: Flags, hyphens: bool, cs: string)
    requires f.Valid()
    ensures ReadCluster(f, cs).Plain? ==> SeeCluster(f, hyphens, cs) == Fine
    ensures ReadCluster(f, cs).Wants? ==> SeeCluster(f, hyphens, cs) == Expects(ReadCluster(f, cs).opt)
    ensures SeeCluster(f, hyphens, cs).Refused? ==> ReadCluster(f, cs).Stop?
  {
    if cs != "" { SeenAsRead(f, hyphens, cs[1..]); }
  }

  lemma TokenSeenAsRead(f: Flags, hyphens: bool, t: string)
    requires f.Valid() && !EndsOptions(t)
    ensures ReadToken(f, t).Plain? ==> SeeToken(f, hyphens, t) == Fine
    ensures ReadToken(f, t).Wants? ==> SeeToken(f, hyphens, t) == Expects(ReadToken(f, t).opt)
    ensures SeeToken(f, hyphens, t).Refused? ==> ReadToken(f, t).Stop?
  {
    SeenAsRead(f, hyphens, t[1..]);
  }

  function Inserted(args: seq<string>, p: Place): seq<string>
    requires p.At? ==> p.index <= |args|
  {
    if p.At? then args[..p.index] + ["--"] + args[p.index..] else args
  }

  lemma InsertedShift(args: seq<string>, n: nat, p: Place)
    requires n <= |args| && (p.At? ==> p.index <= |args| - n)
    ensures Inserted(args, Shift(n, p)) == args[..n] + Inserted(args[n..], p)
  {
    if p.At? {
      assert args[..n + p.index] == args[..n] + args[n..][..p.index];
      assert args[n + p.index..] == args[n..][p.index..];
    } else {
      assert args == args[..n] + args[n..];
    }
  }

  lemma {:induction false} PermissiveIsStrict(f: Flags, hyphens: bool, args: seq<string>)
    requires f.Valid() && !Locate(f, hyphens, args).Bad?
    ensures Permissive(f, Inserted(args, Locate(f, hyphens, args))) == Strict(f, args)
    decreases |args|
  {
    if args != [] && !EndsOptions(args[0]) {
      var p := Locate(f, hyphens, args);
      var out := Inserted(args, p);
      TokenSeenAsRead(f, hyphens, args[0]);
      var n := if SeeToken(f, hyphens, args[0]).Fine? then 1 else 2;
      var q := Locate(f, hyphens, args[n..]);
      InsertedShift(args, n, q);
      assert out == args[..n] + Inserted(args[n..], q);
      assert out[n..] == Inserted(args[n..], q);
      if !ReadToken(f, args[0]).Stop? { PermissiveIsStrict(f, hyphens, args[n..]); }
    } else if args != [] && args[0] != "--" {
      assert Inserted(args, Locate(f, hyphens, args)) == ["--"] + args;
    }
  }

  /** What the inserted separator buys: the permissive parser reads only the strict options. */
  lemma DelimitKeepsReading(f: Flags, hyphens: bool, limit: nat, args: seq<string>)
    requires f.Valid() && limit > 0 && Delimit(f, hyphens, limit, args).Ok?
    ensures Permissive(f, Delimit(f, hyphens, limit, args).value) == Strict(f, args)
  {
    PermissiveIsStrict(f, hyphens, args);
  }

  /** At most one `--` is added, right before the first operand; deleting it gives the input back. */
  lemma DelimitOnlyInserts(f: Flags, hyphens: bool, limit: nat, args: seq<string>)
    requires Delimit(f, hyphens, limit, args).Ok?
    ensures var out := Delimit(f, hyphens, limit, args).value;
            || out == args
            || exists k | 0 <= k < |args| ::
                 out[k..k + 1] == ["--"] && out[..k] + out[k + 1..] == args && IsPositionalStart(args[k])
  {
    var out := Delimit(f, hyphens, limit, args).value;
    if out != args {
      var k := Locate(f, hyphens, args).index;
      assert out[k..k + 1] == ["--"] && out[..k] == args[..k] && out[k + 1..] == args[k..];
      assert out[..k] + out[k + 1..] == args;
    }
  }

  lemma {:induction false} LocateAgainstReading(f: Flags, hyphens: bool, args: seq<string>)
    requires f.Valid()
    ensures var p := Locate(f, hyphens, args);
            var r := Strict(f, args);
            && (p.Bad? ==> !r.status.Complete?)
            && (r.status.MissingValue? ==> p == Bad(MissingFor(r.status.opt)))
            && (r.status.Complete? && p.At? ==> r.operands == args[p.index..])
            && (r.status.Complete? && p.Nowhere? && r.operands != [] ==> "--" in args)
    decreases |args|
  {
    if args != [] && !EndsOptions(args[0]) {
      TokenSeenAsRead(f, hyphens, args[0]);
      LocateAgainstReading(f, hyphens, args[1..]);
      if |args| > 1 { LocateAgainstReading(f, hyphens, args[2..]); }
    }
  }

  /**
    The errors: an unknown flag or a missing value is reported only where the strict reading
    fails, a missing value always, and too many arguments exactly when the operands of a
    readable command line exceed the limit.
   */
  lemma DelimitErrors(f: Flags, hyphens: bool, limit: nat, args: seq<string>)
    requires f.Valid()
    ensures var d := Delimit(f, hyphens, limit, args);
            var r := Strict(f, args);
            && (d.Err? && !d.error.TooManyValues? ==> !r.status.Complete?)
            && (r.status.MissingValue? ==> d == Err(MissingFor(r.status.opt)))
            && (r.status.Complete? && Locate(f, hyphens, args).At? && limit > 0 ==>
                  (d == Err(TooManyValues(limit)) <==> |r.operands| > limit))
  {
    LocateAgainstReading(f, hyphens, args);
  }

  // ---------------------------------------------------------------------------------
  // Which error, exactly
  // ---------------------------------------------------------------------------------

  /** The flags as the scan knows them: every declared short flag that requires no value takes none. */
  function Declared(f: Flags): Flags {
    f.(bools := f.shorts - f.vals)
  }

  lemma {:induction false} ClusterRefusedIff(f: Flags, cs: string)
    requires f.vals <= f.shorts
    ensures SeeCluster(f, true, cs) ==
            match ReadCluster(Declared(f), cs)
            case Plain(_) => Fine
            case Wants(_, o) => Expects(o)
            case Stop(_, st) => Refused(UnknownShort(st.flag))
  {
    if cs != "" { ClusterRefusedIff(f, cs[1..]); }
  }

  lemma TokenRefusedIff(f: Flags, t: string)
    requires f.vals <= f.shorts && !EndsOptions(t)
    ensures SeeToken(f, true, t) ==
            match ReadToken(Declared(f), t)
            case Plain(_) => Fine
            case Wants(_, o) => Expects(o)
            case Stop(_, st) => Refused(if st.Unread? then UnknownShort(st.flag) else UnknownLong(st.name))
  {
    ClusterRefusedIff(f, t[1..]);
  }

  /** The name of a long option is what stands before its first equals sign, or all of it. */
  lemma {:induction false} NameIsBeforeEquals(body: string)
    ensures var name := NameOf(body);
            name <= body && '=' !in name && (name == body || body[|name|] == '=')
  {
    if body != "" && body[0] != '=' {
      NameIsBeforeEquals(body[1..]);
      assert body == [body[0]] + body[1..];
    }
  }

  /** The scan's error for a reading that is not complete. */
  function ErrorOf(s: Status): Failure
    requires !s.Complete?
  {
    match s
    case Unread(c) => UnknownShort(c)
    case UnreadLong(name) => UnknownLong(name)
    case MissingValue(o) => MissingFor(o)
  }

  /** Where positionals allow hyphens, the scan fails exactly as the strict reading does, and finds its operands. */
  lemma {:induction false} LocateIff(f: Flags, args: seq<string>)
    requires f.vals <= f.shorts
    ensures var p, r := Locate(f, true, args), Strict(Declared(f), args);
            && (!r.status.Complete? ==> p == Bad(ErrorOf(r.status)))
            && (r.status.Complete? ==> !p.Bad? && (p.At? ==> r.operands == args[p.index..]))
    decreases |args|
  {
    if args != [] && !EndsOptions(args[0]) {
      TokenRefusedIff(f, args[0]);
      LocateIff(f, args[1..]);
      if |args| > 1 { LocateIff(f, args[2..]); }
    }
  }

  /**
    Where positionals allow hyphens, an unknown option is reported, by its flag or name, if and only if it is
    what stops the strict reading; and so is a missing value.
   */
  lemma UnknownFlagIff(f: Flags, limit: nat, args: seq<string>)
    requires f.vals <= f.shorts
    ensures var d, st := Delimit(f, true, limit, args), Strict(Declared(f), args).status;
            && (forall c :: d == Err(UnknownShort(c)) <==> st == Unread(c))
            && (forall name :: d == Err(UnknownLong(name)) <==> st == UnreadLong(name))
            && (forall o :: d == Err(MissingFor(o)) <==> st == MissingValue(o))
    ensures f.Valid() && f.shorts == f.bools + f.vals ==> Declared(f) == f
  {
    LocateIff(f, args);
  }

  /** Options could go on at `k`: a separator put there would be read as one. */
  predicate OpenAt(f: Flags, args: seq<string>, k: nat)
    requires k <= |args|
  {
    Strict(f, args[..k] + ["--"]).operands == []
  }

  lemma {:induction false} OperandsAreTail(f: Flags, args: seq<string>)
    ensures |Strict(f, args).operands| <= |args|
    decreases |args|
  {
    if args != [] && !EndsOptions(args[0]) {
      OperandsAreTail(f, args[1..]);
      if |args| > 1 { OperandsAreTail(f, args[2..]); }
    }
  }

  /** The operand is located where the strict operands start, unless they stand behind a separator already. */
  lemma {:induction false} LocateExactly(f: Flags, args: seq<string>)
    requires f.vals <= f.shorts && Strict(Declared(f), args).status.Complete?
    ensures var ops := Strict(Declared(f), args).operands;
            && |ops| <= |args|
            && Locate(f, true, args) ==
               if ops != [] && OpenAt(Declared(f), args, |args| - |ops|) then At(|args| - |ops|) else Nowhere
    decreases |args|
  {
    var g := Declared(f);
    var r := Strict(g, args);
    OperandsAreTail(g, args);
    var k := |args| - |r.operands|;
    if args == [] {
    } else if args[0] == "--" {
      assert args[..k] + ["--"] == ["--"] + ["--"];
    } else if IsPositionalStart(args[0]) {
      assert args[..k] + ["--"] == ["--"];
    } else {
      TokenRefusedIff(f, args[0]);
      var n := if ReadToken(g, args[0]).Plain? then 1 else 2;
      LocateExactly(f, args[n..]);
      OpenLater(g, args, n, k);
    }
  }

  lemma OpenLater(f: Flags, args: seq<string>, n: nat, k: nat)
    requires args != [] && !EndsOptions(args[0]) && !ReadToken(f, args[0]).Stop?
    requires n == (if ReadToken(f, args[0]).Plain? then 1 else 2) && n <= k <= |args|
    ensures OpenAt(f, args, k) <==> OpenAt(f, args[n..], k - n)
  {
    var now, later := args[..k] + ["--"], args[n..][..k - n] + ["--"];
    assert now[0] == args[0] && now[n..] == later;
  }

  /**
    The whole outcome where positionals allow hyphens, in terms of the strict reading: its error; or, if its
    operands are not behind a separator and positionals are declared, one separator before them or the error
    that they are too many; or the arguments as they are.
   */
  lemma DelimitOutcome(f: Flags, limit: nat, args: seq<string>)
    requires f.vals <= f.shorts
    ensures var r := Strict(Declared(f), args);
            var k := |args| - |r.operands|;
            && 0 <= k <= |args|
            && Delimit(f, true, limit, args) ==
               if !r.status.Complete? then Err(ErrorOf(r.status))
               else if r.operands == [] || !OpenAt(Declared(f), args, k) || limit == 0 then Ok(args)
               else if |r.operands| > limit then Err(TooManyValues(limit))
               else Ok(args[..k] + ["--"] + r.operands)
  {
    OperandsAreTail(Declared(f), args);
    LocateIff(f, args);
    if Strict(Declared(f), args).status.Complete? { LocateExactly(f, args); }
  }

  /** The same flags with the given characters and names declared as well, without values. */
  function Widened(f: Flags, cs: set<char>, names: set<string>): Flags {
    f.(shorts := f.shorts + cs, longs := f.longs + names)
  }

  predicate Covers(cs: set<char>, names: set<string>, args: seq<string>) {
    && (forall t, i | t in args && 0 <= i < |t| :: t[i] in cs)
    && (forall t | t in args && |t| >= 2 :: NameOf(t[2..]) in names)
  }

  lemma {:induction false} ClusterSkips(f: Flags, cs: set<char>, names: set<string>, t: string)
    requires f.vals <= f.shorts && forall i | 0 <= i < |t| :: t[i] in cs
    ensures SeeCluster(f, false, t) == SeeCluster(Widened(f, cs, names), true, t)
    ensures !SeeCluster(f, false, t).Refused?
  {
    if t != "" { ClusterSkips(f, cs, names, t[1..]); }
  }

  lemma TokenSkips(f: Flags, cs: set<char>, names: set<string>, t: string)
    requires f.Valid() && !EndsOptions(t) && (forall i | 0 <= i < |t| :: t[i] in cs) && NameOf(t[2..]) in names
    ensures SeeToken(f, false, t) == SeeToken(Widened(f, cs, names), true, t)
    ensures !SeeToken(f, false, t).Refused?
  {
    ClusterSkips(f, cs, names, t[1..]);
  }

  /**
    Where no positional allows hyphens, unknown options are passed over: the scan finds what it would find if
    every flag and name of the command line were declared, and reports no unknown option.
   */
  lemma {:induction false} UnknownFlagsSkipped(f: Flags, cs: set<char>, names: set<string>, args: seq<string>)
    requires f.Valid() && Covers(cs, names, args)
    ensures Locate(f, false, args) == Locate(Widened(f, cs, names), true, args)
    ensures var p := Locate(f, false, args); p.Bad? ==> p.failure.MissingFor?
    decreases |args|
  {
    if args != [] && !EndsOptions(args[0]) {
      assert args[0] in args;
      TokenSkips(f, cs, names, args[0]);
      UnknownFlagsSkipped(f, cs, names, args[1..]);
      if |args| > 1 { UnknownFlagsSkipped(f, cs, names, args[2..]); }
    }
  }

  /** So without such positionals neither error of an unknown option is ever returned. */
  lemma NoUnknownErrors(f: Flags, limit: nat, args: seq<string>)
    requires f.Valid()
    ensures var d := Delimit(f, false, limit, args); d.Err? ==> d.error.MissingFor? || d.error.TooManyValues?
  {
    var cs := set t, i | t in args && 0 <= i < |t| :: t[i];
    var names := set t | t in args && |t| >= 2 :: NameOf(t[2..]);
    UnknownFlagsSkipped(f, cs, names, args);
  }

  function Saturated(n: nat): nat {
    if n > USIZE_MAX then USIZE_MAX else n
  }

  /** The limits of all positionals add up, as far as the machine word goes. */
  lemma {:induction false} LimitsAddUp(a: seq<nat>, b: seq<nat>)
    ensures PositionalLimit(a + b) == Saturated(PositionalLimit(a) + PositionalLimit(b))
    ensures forall m: nat :: PositionalLimit([m]) == Saturated(m)
    decreases |b|
  {
    forall m: nat ensures PositionalLimit([m]) == Saturated(m) {
      assert [m][..0] == [];
    }
    if b == [] {
      assert a + b == a;
    } else {
      var init, last := b[..|b| - 1], b[|b| - 1];
      LimitsAddUp(a, init);
      assert (a + b)[..|a + b| - 1] == a + init;
    }
  }

  /** A command without positionals is left alone: the permissive parser still sees an operand. */
  lemma {:induction false} NoPositionalsStillRefused(f: Flags, hyphens: bool, args: seq<string>)
    requires f.Valid() && Locate(f, hyphens, args).At?
    ensures Delimit(f, hyphens, 0, args) == Ok(args)
    ensures var r := Permissive(f, args); !r.status.Complete? || r.operands != []
    decreases |args|
  {
    if !EndsOptions(args[0]) {
      TokenSeenAsRead(f, hyphens, args[0]);
      var n := if SeeToken(f, hyphens, args[0]).Fine? then 1 else 2;
      NoPositionalsStillRefused(f, hyphens, args[n..]);
    }
  }

  /**
    The whole pipeline of a command with repeat flags, splitting, collapsing and delimiting: the parser's
    last-wins reading is getopt's last-wins reading of the raw command line.
   */
  lemma RewrittenLastWinsReading(f: Flags, repeats: set<char>, hyphens: bool, limit: nat, argv: seq<string>)
    requires f.Valid() && repeats <= f.vals && limit > 0
    requires InStep(f, argv) && ClearLine(f, repeats, argv)
    requires Delimit(f, hyphens, limit, NormalizeAll(f, repeats, argv)).Ok?
    ensures Settle(repeats, Permissive(f, Delimit(f, hyphens, limit, NormalizeAll(f, repeats, argv)).value)) ==
            Settle(repeats, Strict(f, argv))
  {
    DelimitKeepsReading(f, hyphens, limit, NormalizeAll(f, repeats, argv));
    NormalizeAllKeepsReading(f, repeats, argv);
  }

  /** Cluster splitting and then delimiting: the parser reads what getopt reads on the raw command line. */
  lemma RewrittenCommandLineReading(f: Flags, hyphens: bool, limit: nat, argv: seq<string>)
    requires f.Valid() && limit > 0 && (f.vals == {} || InStep(f, argv))
    requires Delimit(f, hyphens, limit, Normalize(f, argv)).Ok?
    ensures Permissive(f, Delimit(f, hyphens, limit, Normalize(f, argv)).value) == Strict(f, argv)
  {
    NormalizeKeepsReading(f, argv);
    DelimitKeepsReading(f, hyphens, limit, Normalize(f, argv));
  }
}
