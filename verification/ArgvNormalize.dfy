/**
  Splitting of short-option clusters, `normalize_attached_short_values` in src/cli_args.rs.

  `Norm` is the functional form of the loop; the main results are that the rewritten
  command line has the same strict reading exactly when it is `InStep`, and that
  rewriting is idempotent.
 */
module ArgvNormalize {
  import opened Wrappers
  import opened Getopt

  /** Option tokens as rewritten, and the untouched tail from the first operand or `--`. */
  datatype Split = Split(options: seq<string>, trailing: seq<string>) {
    function Joined(): seq<string> { options + trailing }
  }

  function Before(ts: seq<string>, s: Split): Split {
    Split(ts + s.options, s.trailing)
  }

  function ExactShortFlag(t: string, flags: set<char>): (r: Option<char>)
    ensures r.Some? <==> |t| == 2 && t[0] == '-' && t[1] != '-' && t[1] in flags
    ensures r.Some? ==> r.value == t[1]
  {
    if |t| == 2 && t[0] == '-' && t[1] != '-' && t[1] in flags then Some(t[1]) else None
  }

  function Onto(ts: seq<string>, o: Option<(seq<string>, bool)>): Option<(seq<string>, bool)> {
    match o
    case None => None
    case Some(p) => Some((ts + p.0, p.1))
  }

  lemma OntoNothing(o: Option<(seq<string>, bool)>)
    ensures Onto([], o) == o
  {
    if o.Some? { assert [] + o.value.0 == o.value.0; }
  }

  lemma OntoOnto(ts: seq<string>, us: seq<string>, o: Option<(seq<string>, bool)>)
    ensures Onto(ts, Onto(us, o)) == Onto(ts + us, o)
  {
    if o.Some? { assert ts + (us + o.value.0) == ts + us + o.value.0; }
  }

  function CompactParts(f: Flags, cs: string): Option<(seq<string>, bool)> {
    if cs == "" then Some(([], false))
    else if cs[0] in f.bools then
      Onto([['-', cs[0]]], CompactParts(f, cs[1..]))
    else if cs[0] in f.vals then
      if |cs| > 1 then Some(([['-', cs[0]], cs[1..]], false)) else Some(([['-', cs[0]]], true))
    else None
  }

  function Compact(f: Flags, t: string): Option<(seq<string>, bool)> {
    if |t| < 3 || t[0] != '-' || t[1] == '-' then None else CompactParts(f, t[1..])
  }

  /** The tokens that replace option token `t`, and whether the next token is its value. */
  function Emit(f: Flags, t: string): (seq<string>, bool) {
    match Compact(f, t)
    case Some(p) => p
    case None => ([t], ExactShortFlag(t, f.vals).Some?)
  }

  function Norm(f: Flags, argv: seq<string>): Split {
    if argv == [] || EndsOptions(argv[0]) then Split([], argv)
    else
      var (parts, needs) := Emit(f, argv[0]);
      if needs then Before(parts, Resume(f, argv[1..])) else Before(parts, Norm(f, argv[1..]))
  }

  /** `Norm` when the first token is copied as the value of the preceding flag. */
  function Resume(f: Flags, rest: seq<string>): Split {
    if rest == [] then Split([], []) else Before(rest[..1], Norm(f, rest[1..]))
  }

  function Normalize(f: Flags, argv: seq<string>): seq<string> {
    if f.vals == {} then argv else Norm(f, argv).Joined()
  }

  /** The scan of one token, `normalize_compact_short_value_token`. */
  method NormalizeCompactShortValueToken(f: Flags, t: string) returns (r: Option<(seq<string>, bool)>)
    ensures r == Compact(f, t)
  {
    if |t| < 3 || t[0] != '-' || t[1] == '-' {
      return None;
    }
    var parts: seq<string> := [];
    var i := 1;
    OntoNothing(CompactParts(f, t[1..]));
    while i < |t|
      invariant 1 <= i <= |t|
      invariant Compact(f, t) == Onto(parts, CompactParts(f, t[i..]))
    {
      var flag := t[i];
      assert t[i..][1..] == t[i + 1..];
      if flag in f.bools {
        OntoOnto(parts, [['-', flag]], CompactParts(f, t[i + 1..]));
        parts := parts + [['-', flag]];
        i := i + 1;
        continue;
      }
      if flag in f.vals {
        ghost var before := parts;
        parts := parts + [['-', flag]];
        if i + 1 < |t| {
          assert parts + [t[i + 1..]] == before + [['-', flag], t[i + 1..]];
          return Some((parts + [t[i + 1..]], false));
        }
        return Some((parts, true));
      }
      return None;
    }
    assert parts + [] == parts;
    return Some((parts, false));
  }

  function Pending(f: Flags, expectNext: bool, rest: seq<string>): Split {
    if expectNext then Resume(f, rest) else Norm(f, rest)
  }

  lemma BeforeBefore(ts: seq<string>, us: seq<string>, s: Split)
    ensures Before(ts, Before(us, s)) == Before(ts + us, s)
  {
    assert ts + (us + s.options) == ts + us + s.options;
  }

  /** One iteration of the loop: a copied value, or a rewritten option token. */
  lemma PendingStep(f: Flags, options: seq<string>, expectNext: bool, t: string, rest: seq<string>)
    requires !expectNext ==> !EndsOptions(t)
    ensures Before(options, Pending(f, expectNext, [t] + rest)) ==
            (if expectNext then Before(options + [t], Pending(f, false, rest))
             else Before(options + Emit(f, t).0, Pending(f, Emit(f, t).1, rest)))
  {
    var all := [t] + rest;
    assert all[1..] == rest && all[..1] == [t];
    BeforeBefore(options, if expectNext then [t] else Emit(f, t).0,
                 Pending(f, !expectNext && Emit(f, t).1, rest));
  }

  /** At an operand or `--` nothing more is rewritten. */
  lemma PendingEnds(f: Flags, options: seq<string>, rest: seq<string>)
    requires rest == [] || EndsOptions(rest[0])
    ensures Before(options, Pending(f, false, rest)) == Split(options, rest)
  {
    assert options + [] == options;
  }

  /** The loop of `normalize_attached_short_values`, before its collapse step. */
  method NormalizeOptions(f: Flags, args: seq<string>) returns (options: seq<string>, trailing: seq<string>)
    ensures Norm(f, args) == Split(options, trailing)
  {
    options, trailing := [], [];
    var passthrough, expectNext := false, false;
    var i := 0;
    while i < |args|
      invariant 0 <= i <= |args|
      invariant passthrough ==> Norm(f, args) == Split(options, trailing + args[i..])
      invariant !passthrough ==> trailing == []
      invariant !passthrough ==>
                  Norm(f, args) == Before(options, Pending(f, expectNext, args[i..]))
    {
      var argument := args[i];
      assert args[i..] == [argument] + args[i + 1..];
      if !passthrough {
        if expectNext || !EndsOptions(argument) {
          PendingStep(f, options, expectNext, argument, args[i + 1..]);
        } else {
          PendingEnds(f, options, args[i..]);
        }
      }
      i := i + 1;
      if passthrough {
        assert trailing + ([argument] + args[i..]) == trailing + [argument] + args[i..];
        trailing := trailing + [argument];
        continue;
      }
      if expectNext {
        options := options + [argument];
        expectNext := false;
        continue;
      }
      if argument == "--" {
        passthrough := true;
        trailing := trailing + [argument];
        continue;
      }
      if IsPositionalStart(argument) {
        trailing := trailing + [argument] + args[i..];
        return;
      }
      var emitted;
      emitted, expectNext := EmitToken(f, argument);
      options := options + emitted;
    }
  }

  /** One option token: a splittable cluster, a lone value flag, or anything else. */
  method EmitToken(f: Flags, argument: string) returns (emitted: seq<string>, expectNext: bool)
    requires !EndsOptions(argument)
    ensures (emitted, expectNext) == Emit(f, argument)
  {
    var compact := NormalizeCompactShortValueToken(f, argument);
    if compact.Some? {
      return compact.value.0, compact.value.1;
    } else if ExactShortFlag(argument, f.vals).Some? {
      return [argument], true;
    }
    return [argument], false;
  }

  // ---------------------------------------------------------------------------------
  // The strict reading of a split cluster is the reading of the cluster
  // ---------------------------------------------------------------------------------

  /** A cluster that splits is one the reading accepts, wanting a value exactly when the split says so. */
  lemma {:induction false} PartsShape(f: Flags, cs: string)
    requires f.Valid() && CompactParts(f, cs).Some?
    ensures !ReadCluster(f, cs).Stop?
    ensures CompactParts(f, cs).value.1 <==> ReadCluster(f, cs).Wants?
    ensures ReadCluster(f, cs).Wants? ==> ReadCluster(f, cs).opt.Short?
  {
    if cs != "" && cs[0] in f.bools {
      PartsShape(f, cs[1..]);
    }
  }

  lemma {:induction false} PartsKeepFlags(f: Flags, cs: string, rest: seq<string>)
    requires f.Valid() && CompactParts(f, cs).Some?
    ensures Strict(f, CompactParts(f, cs).value.0 + rest) == Continue(f, ReadCluster(f, cs), rest)
  {
    if cs == "" {
      assert CompactParts(f, cs).value.0 + rest == rest;
    } else if cs[0] in f.bools {
      PartsKeepFlags(f, cs[1..], rest);
      BoolPart(f, cs, rest);
    } else {
      ValuePart(f, cs, rest);
    }
  }

  lemma BoolPart(f: Flags, cs: string, rest: seq<string>)
    requires f.Valid() && cs != "" && cs[0] in f.bools && CompactParts(f, cs).Some? && CompactParts(f, cs[1..]).Some?
    requires Strict(f, CompactParts(f, cs[1..]).value.0 + rest) == Continue(f, ReadCluster(f, cs[1..]), rest)
    ensures Strict(f, CompactParts(f, cs).value.0 + rest) == Continue(f, ReadCluster(f, cs), rest)
  {
    FlagBefore(f, cs[0], CompactParts(f, cs[1..]).value.0, ReadCluster(f, cs[1..]), ReadCluster(f, cs), rest);
  }

  lemma FlagBefore(f: Flags, c: char, parts: seq<string>, h: Head, h': Head, rest: seq<string>)
    requires f.Valid() && c in f.bools && Strict(f, parts + rest) == Continue(f, h, rest)
    requires h'.events == [Flag(c)] + h.events
    requires h.Plain? ==> h'.Plain?
    requires h.Wants? ==> h'.Wants? && h'.opt == h.opt
    requires h.Stop? ==> h'.Stop? && h'.status == h.status
    ensures Strict(f, [['-', c]] + parts + rest) == Continue(f, h', rest)
  {
    assert [['-', c]] + parts + rest == [['-', c]] + (parts + rest);
    LoneFlag(f, c, parts + rest);
    PrependContinue(f, [Flag(c)], h, h', rest);
  }

  lemma ValuePart(f: Flags, cs: string, rest: seq<string>)
    requires f.Valid() && cs != "" && cs[0] !in f.bools && CompactParts(f, cs).Some?
    ensures Strict(f, CompactParts(f, cs).value.0 + rest) == Continue(f, ReadCluster(f, cs), rest)
  {
    var p := CompactParts(f, cs).value.0;
    if |cs| > 1 {
      var tail := [cs[1..]] + rest;
      assert p + rest == [['-', cs[0]]] + tail;
      LoneValueFlag(f, cs[0], tail);
      assert tail[1..] == rest;
    } else {
      assert p + rest == [['-', cs[0]]] + rest;
      LoneValueFlag(f, cs[0], rest);
    }
  }

  lemma LoneFlag(f: Flags, c: char, rest: seq<string>)
    requires f.Valid() && c in f.bools
    ensures Strict(f, [['-', c]] + rest) == Prepend([Flag(c)], Strict(f, rest))
  {
    var t := ['-', c];
    assert t != "--" && !IsPositionalStart(t) && t[1..] == [c] && t[1..][1..] == "";
    StrictCons(f, t, rest);
    assert ReadCluster(f, t[1..][1..]) == Plain([]);
    assert ReadToken(f, t) == Plain([Flag(c)] + []);
  }

  lemma LoneValueFlag(f: Flags, c: char, rest: seq<string>)
    requires f.Valid() && c in f.vals
    ensures Strict(f, [['-', c]] + rest) == Continue(f, Wants([], Short(c)), rest)
  {
    var t := ['-', c];
    assert t != "--" && !IsPositionalStart(t) && t[1..] == [c] && t[1..][1..] == "";
    StrictCons(f, t, rest);
  }

  lemma PrependContinue(f: Flags, es: seq<Event>, h: Head, h': Head, rest: seq<string>)
    requires h'.events == es + h.events
    requires h.Plain? ==> h'.Plain?
    requires h.Wants? ==> h'.Wants? && h'.opt == h.opt
    requires h.Stop? ==> h'.Stop? && h'.status == h.status
    ensures Prepend(es, Continue(f, h, rest)) == Continue(f, h', rest)
  {
    if h.Plain? {
      assert es + (h.events + Strict(f, rest).events) == h'.events + Strict(f, rest).events;
    } else if h.Wants? && rest != [] {
      var b := [Bound(h.opt, rest[0])];
      var tail := Strict(f, rest[1..]).events;
      assert es + (h.events + b + tail) == h'.events + b + tail;
    }
  }

  lemma {:induction false} CompactIffRead(f: Flags, cs: string)
    ensures CompactParts(f, cs).None? <==> ReadCluster(f, cs).Stop?
    ensures CompactParts(f, cs).Some? && cs != "" ==>
              CompactParts(f, cs).value.0 != [] && CompactParts(f, cs).value.0[0] == ['-', cs[0]]
  {
    if cs != "" && cs[0] in f.bools { CompactIffRead(f, cs[1..]); }
  }

  /** What one rewritten token contributes to the reading, whatever follows it. */
  lemma EmitKeepsToken(f: Flags, t: string, rest: seq<string>)
    requires f.Valid() && !EndsOptions(t)
    ensures Emit(f, t).0 != []
    ensures Emit(f, t).1 <==> ReadToken(f, t).Wants? && ReadToken(f, t).opt.Short?
    ensures ReadToken(f, t).Wants? && ReadToken(f, t).opt.LongName? ==> Emit(f, t).0 == [t]
    ensures Strict(f, Emit(f, t).0 + rest) == Continue(f, ReadToken(f, t), rest)
  {
    var (parts, needs) := Emit(f, t);
    if t[1] != '-' { CompactIffRead(f, t[1..]); }
    if Compact(f, t).Some? {
      PartsShape(f, t[1..]);
      PartsKeepFlags(f, t[1..], rest);
    } else {
      StrictCons(f, t, rest);
      if |t| == 2 && t[1] != '-' { assert t[1..] == [t[1]] && t[1..][1..] == ""; }
    }
  }

  // ---------------------------------------------------------------------------------
  // When the rewriting keeps the reading
  // ---------------------------------------------------------------------------------

  /**
    The rewriter and the strict reading agree on which tokens are values.  They part only
    where a long option takes the next token as its value: the rewriter does not track it
    and looks at that token as an option (`Misread`); if it is spelled like a value flag,
    the token after it is copied although the reading takes it as an option (`Copied`).
   */
  predicate InStep(f: Flags, argv: seq<string>) {
    if argv == [] || EndsOptions(argv[0]) then true
    else
      match ReadToken(f, argv[0])
      case Stop(_, _) => true
      case Plain(_) => InStep(f, argv[1..])
      case Wants(_, o) =>
        |argv| == 1 || (if o.Short? then InStep(f, argv[2..]) else Misread(f, argv[1..]))
  }

  predicate Misread(f: Flags, rest: seq<string>)
    requires rest != []
  {
    if EndsOptions(rest[0]) then true
    else if Compact(f, rest[0]).Some? then false
    else if ExactShortFlag(rest[0], f.vals).Some? then Copied(f, rest[1..])
    else InStep(f, rest[1..])
  }

  predicate Copied(f: Flags, rest: seq<string>) {
    if rest == [] then true
    else if EndsOptions(rest[0]) then Untouched(f, rest[1..])
    else
      match ReadToken(f, rest[0])
      case Stop(_, _) => true
      case Plain(_) => InStep(f, rest[1..])
      case Wants(_, _) => |rest| == 1 || Misread(f, rest[1..])
  }

  /** The rewriter finds no cluster to split, a token after a lone value flag being copied unseen. */
  predicate Untouched(f: Flags, ts: seq<string>) {
    if ts == [] || EndsOptions(ts[0]) then true
    else if Compact(f, ts[0]).Some? then false
    else if ExactShortFlag(ts[0], f.vals).Some? then |ts| == 1 || Untouched(f, ts[2..])
    else Untouched(f, ts[1..])
  }

  /** So exactly the untouched command lines are rewritten to themselves. */
  lemma {:induction false} UntouchedIff(f: Flags, ts: seq<string>)
    requires f.Valid()
    ensures Norm(f, ts).Joined() == ts <==> Untouched(f, ts)
    decreases |ts|
  {
    if ts == [] || EndsOptions(ts[0]) {
      assert Norm(f, ts).Joined() == ts;
    } else if Compact(f, ts[0]).Some? {
      SplitHead(f, ts);
    } else {
      CopiedHead(f, ts);
      var n := Norm(f, ts).Joined();
      SameHead(n, ts);
      if ExactShortFlag(ts[0], f.vals).None? {
        UntouchedIff(f, ts[1..]);
      } else if |ts| == 1 {
        assert Resume(f, ts[1..]).Joined() == ts[1..];
      } else {
        ResumeCons(f, ts[1..]);
        SameHead(n[1..], ts[1..]);
        assert ts[1..][1..] == ts[2..];
        UntouchedIff(f, ts[2..]);
      }
    }
  }

  lemma SameHead(a: seq<string>, b: seq<string>)
    requires a != [] && b != [] && a[0] == b[0]
    ensures a == b <==> a[1..] == b[1..]
  {
    assert a == [a[0]] + a[1..] && b == [b[0]] + b[1..];
  }

  lemma PrependInjective(es: seq<Event>, r: Reading, r': Reading)
    ensures Prepend(es, r) == Prepend(es, r') <==> r == r'
  {
    if Prepend(es, r) == Prepend(es, r') {
      assert r.events == (es + r.events)[|es|..];
      assert r'.events == (es + r'.events)[|es|..];
    }
  }

  lemma BoundInjective(es: seq<Event>, o: Opt, v: string, v': string, r: Reading, r': Reading)
    ensures Prepend(es + [Bound(o, v)], r) == Prepend(es + [Bound(o, v')], r') <==> v == v' && r == r'
  {
    var a, b := Prepend(es + [Bound(o, v)], r), Prepend(es + [Bound(o, v')], r');
    if a == b {
      assert a.events[|es|] == Bound(o, v) && b.events[|es|] == Bound(o, v');
      PrependInjective(es + [Bound(o, v)], r, r');
    }
  }

  /** The rewritten form of a command line that starts with an option token. */
  lemma NormCons(f: Flags, argv: seq<string>)
    requires argv != [] && !EndsOptions(argv[0])
    ensures Norm(f, argv).Joined() ==
            Emit(f, argv[0]).0 +
            (if Emit(f, argv[0]).1 then Resume(f, argv[1..]).Joined() else Norm(f, argv[1..]).Joined())
  {
  }

  lemma {:induction false} ReadingIffInStep(f: Flags, argv: seq<string>)
    requires f.Valid()
    ensures Strict(f, Norm(f, argv).Joined()) == Strict(f, argv) <==> InStep(f, argv)
    decreases |argv|, 1
  {
    if argv == [] || EndsOptions(argv[0]) {
      assert Norm(f, argv).Joined() == argv;
    } else {
      var t, rest := argv[0], argv[1..];
      var tail := if Emit(f, t).1 then Resume(f, rest).Joined() else Norm(f, rest).Joined();
      NormCons(f, argv);
      EmitKeepsToken(f, t, tail);
      assert argv == [t] + rest;
      StrictCons(f, t, rest);
      match ReadToken(f, t)
      case Stop(_, _) =>
      case Plain(es) =>
        ReadingIffInStep(f, rest);
        PrependInjective(es, Strict(f, tail), Strict(f, rest));
      case Wants(es, o) =>
        if rest != [] { ValueIffInStep(f, argv, es, o, tail); }
    }
  }

  lemma ResumeCons(f: Flags, rest: seq<string>)
    requires rest != []
    ensures var tail := Resume(f, rest).Joined(); tail != [] && tail[0] == rest[0] && tail[1..] == Norm(f, rest[1..]).Joined()
  {
    assert Resume(f, rest).Joined() == [rest[0]] + Norm(f, rest[1..]).Joined();
  }

  lemma {:induction false} ValueIffInStep(f: Flags, argv: seq<string>, es: seq<Event>, o: Opt, tail: seq<string>)
    requires f.Valid() && |argv| > 1 && !EndsOptions(argv[0])
    requires ReadToken(f, argv[0]) == Wants(es, o)
    requires tail == if o.Short? then Resume(f, argv[1..]).Joined() else Norm(f, argv[1..]).Joined()
    ensures Continue(f, Wants(es, o), tail) == Continue(f, Wants(es, o), argv[1..]) <==> InStep(f, argv)
    decreases |argv|, 0
  {
    var rest := argv[1..];
    assert argv[2..] == rest[1..];
    if o.Short? {
      ReadingIffInStep(f, rest[1..]);
      ResumeCons(f, rest);
    } else {
      ReadingIffMisread(f, rest);
    }
    BoundInjective(es, o, tail[0], rest[0], Strict(f, tail[1..]), Strict(f, rest[1..]));
  }

  lemma EmitHead(f: Flags, t: string)
    requires f.Valid() && !EndsOptions(t)
    ensures Compact(f, t).None? ==> Emit(f, t).0 == [t]
    ensures Compact(f, t).Some? ==> Emit(f, t).0 != [] && Emit(f, t).0[0] == ['-', t[1]] != t
  {
    if Compact(f, t).Some? {
      CompactIffRead(f, t[1..]);
    }
  }

  lemma SplitHead(f: Flags, rest: seq<string>)
    requires f.Valid() && rest != [] && !EndsOptions(rest[0]) && Compact(f, rest[0]).Some?
    ensures Norm(f, rest).Joined() != [] && Norm(f, rest).Joined()[0] != rest[0]
  {
    EmitHead(f, rest[0]);
    NormCons(f, rest);
  }

  lemma CopiedHead(f: Flags, rest: seq<string>)
    requires f.Valid() && rest != [] && !EndsOptions(rest[0]) && Compact(f, rest[0]).None?
    ensures var n := Norm(f, rest).Joined();
            && n != [] && n[0] == rest[0]
            && n[1..] == if Emit(f, rest[0]).1 then Resume(f, rest[1..]).Joined() else Norm(f, rest[1..]).Joined()
  {
    EmitHead(f, rest[0]);
    NormCons(f, rest);
  }

  lemma {:induction false} ReadingIffMisread(f: Flags, rest: seq<string>)
    requires f.Valid() && rest != []
    ensures var n := Norm(f, rest).Joined();
            && n != []
            && (n[0] == rest[0] && Strict(f, n[1..]) == Strict(f, rest[1..]) <==> Misread(f, rest))
    decreases |rest|, 0
  {
    var n := Norm(f, rest).Joined();
    if EndsOptions(rest[0]) {
      assert n == rest;
    } else if Compact(f, rest[0]).Some? {
      SplitHead(f, rest);
    } else {
      CopiedHead(f, rest);
      if Emit(f, rest[0]).1 { ReadingIffCopied(f, rest[1..]); } else { ReadingIffInStep(f, rest[1..]); }
    }
  }

  lemma {:induction false} ReadingIffCopied(f: Flags, rest: seq<string>)
    requires f.Valid()
    ensures Strict(f, Resume(f, rest).Joined()) == Strict(f, rest) <==> Copied(f, rest)
    decreases |rest|, 1
  {
    if rest != [] {
      var t, tail := rest[0], Norm(f, rest[1..]).Joined();
      assert Resume(f, rest).Joined() == [t] + tail && rest == [t] + rest[1..];
      if EndsOptions(t) {
        assert ([t] + tail)[1..] == tail;
        SameHead([t] + tail, rest);
        UntouchedIff(f, rest[1..]);
      } else {
        StrictCons(f, t, tail);
        StrictCons(f, t, rest[1..]);
        match ReadToken(f, t)
        case Stop(_, _) =>
        case Plain(es) =>
          ReadingIffInStep(f, rest[1..]);
          PrependInjective(es, Strict(f, tail), Strict(f, rest[1..]));
        case Wants(es, o) =>
          if |rest| > 1 {
            ReadingIffMisread(f, rest[1..]);
            BoundInjective(es, o, tail[0], rest[1], Strict(f, tail[1..]), Strict(f, rest[1..][1..]));
          }
      }
    }
  }

  /** Splitting clusters keeps the getopt reading exactly when the two scans stay in step. */
  lemma NormalizeKeepsReading(f: Flags, argv: seq<string>)
    requires f.Valid()
    ensures Strict(f, Normalize(f, argv)) == Strict(f, argv) <==> f.vals == {} || InStep(f, argv)
  {
    ReadingIffInStep(f, argv);
  }

  /** Short options alone can never put the scans out of step. */
  lemma {:induction false} ShortFlagsAlwaysInStep(f: Flags, argv: seq<string>)
    requires f.Valid() && f.longVals == {}
    ensures InStep(f, argv)
    ensures Strict(f, Normalize(f, argv)) == Strict(f, argv)
  {
    if argv != [] && !EndsOptions(argv[0]) {
      CompactIffRead(f, argv[0][1..]);
      EmitKeepsToken(f, argv[0], []);
      ShortFlagsAlwaysInStep(f, argv[1..]);
      if |argv| > 1 { ShortFlagsAlwaysInStep(f, argv[2..]); }
    }
    NormalizeKeepsReading(f, argv);
  }

  /** The failing family: a long option's separate value that is itself a splittable cluster. */
  lemma ClusterAsLongValueIsRewritten(f: Flags, name: string, v: string, rest: seq<string>)
    requires f.Valid() && f.vals != {} && name in f.longVals && name != "" && '=' !in name
    requires Compact(f, v).Some?
    ensures Strict(f, Normalize(f, ["--" + name, v] + rest)) != Strict(f, ["--" + name, v] + rest)
  {
    var argv := ["--" + name, v] + rest;
    assert argv[0][2..] == name && argv[0][2] == name[0];
    assert ReadToken(f, argv[0]) == Wants([], LongName(name));
    assert argv[1..] == [v] + rest;
    NormalizeKeepsReading(f, argv);
  }

  // ---------------------------------------------------------------------------------
  // Idempotence
  // ---------------------------------------------------------------------------------

  /** A token that is not a cluster is rewritten to itself. */
  lemma NormSingle(f: Flags, t: string, s: Split)
    requires !EndsOptions(t) && Compact(f, t).None?
    requires s == if ExactShortFlag(t, f.vals).Some? then Resume(f, s.Joined()) else Norm(f, s.Joined())
    ensures Norm(f, Before([t], s).Joined()) == Before([t], s)
  {
    var all := Before([t], s).Joined();
    assert all[0] == t && all[1..] == s.Joined();
  }

  lemma ResumeSingle(f: Flags, v: string, s: Split)
    requires Norm(f, s.Joined()) == s
    ensures Resume(f, Before([v], s).Joined()) == Before([v], s)
  {
    var all := Before([v], s).Joined();
    assert all[..1] == [v] && all[1..] == s.Joined();
  }

  lemma {:induction false} PartsAreFixed(f: Flags, cs: string, s: Split)
    requires f.Valid() && CompactParts(f, cs).Some?
    requires s == if CompactParts(f, cs).value.1 then Resume(f, s.Joined()) else Norm(f, s.Joined())
    ensures Norm(f, Before(CompactParts(f, cs).value.0, s).Joined()) == Before(CompactParts(f, cs).value.0, s)
  {
    if cs == "" {
      assert Before([], s) == s;
    } else {
      var t := ['-', cs[0]];
      if cs[0] in f.bools {
        PartsAreFixed(f, cs[1..], s);
        var q := CompactParts(f, cs[1..]).value.0;
        NormSingle(f, t, Before(q, s));
        BeforeBefore([t], q, s);
      } else if |cs| > 1 {
        ResumeSingle(f, cs[1..], s);
        NormSingle(f, t, Before([cs[1..]], s));
        BeforeBefore([t], [cs[1..]], s);
        assert [t] + [cs[1..]] == [t, cs[1..]];
      } else {
        NormSingle(f, t, s);
      }
    }
  }

  lemma {:induction false} NormIsFixed(f: Flags, argv: seq<string>)
    requires f.Valid()
    ensures Norm(f, Norm(f, argv).Joined()) == Norm(f, argv)
    ensures Resume(f, Resume(f, argv).Joined()) == Resume(f, argv)
    decreases |argv|
  {
    if argv == [] {
    } else {
      NormIsFixed(f, argv[1..]);
      ResumeSingle(f, argv[0], Norm(f, argv[1..]));
      assert argv[..1] == [argv[0]];
      if EndsOptions(argv[0]) {
        assert Norm(f, argv).Joined() == argv;
      } else {
        OptionTokenIsFixed(f, argv[0], if Emit(f, argv[0]).1 then Resume(f, argv[1..]) else Norm(f, argv[1..]));
      }
    }
  }

  lemma OptionTokenIsFixed(f: Flags, t: string, s: Split)
    requires f.Valid() && !EndsOptions(t)
    requires s == if Emit(f, t).1 then Resume(f, s.Joined()) else Norm(f, s.Joined())
    ensures Norm(f, Before(Emit(f, t).0, s).Joined()) == Before(Emit(f, t).0, s)
  {
    if Compact(f, t).Some? { PartsAreFixed(f, t[1..], s); } else { NormSingle(f, t, s); }
  }

  /** Rewriting an already rewritten command line changes nothing. */
  lemma NormalizeIsIdempotent(f: Flags, argv: seq<string>)
    requires f.Valid()
    ensures Normalize(f, Normalize(f, argv)) == Normalize(f, argv)
  {
    NormIsFixed(f, argv);
  }
}
