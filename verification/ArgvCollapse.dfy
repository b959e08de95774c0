/**
  Dropping repeated values of last-wins flags, `collapse_repeated_short_values` in
  src/cli_args.rs, and the whole of `normalize_attached_short_values` with that step.
 */
module ArgvCollapse {
  import opened Wrappers
  import opened Getopt
  import opened ArgvNormalize

  /** A command line cut into repeat-flag pairs and all other tokens. */
  datatype Seg = Pair(flag: char, value: string) | Single(token: string)

  function Segs(args: seq<string>, repeats: set<char>): seq<Seg> {
    if args == [] then []
    else if |args| > 1 && ExactShortFlag(args[0], repeats).Some? then
      [Pair(args[0][1], args[1])] + Segs(args[2..], repeats)
    else [Single(args[0])] + Segs(args[1..], repeats)
  }

  function Tokens(seg: Seg): seq<string> {
    match seg
    case Pair(c, v) => [['-', c], v]
    case Single(t) => [t]
  }

  function Flat(segs: seq<Seg>): seq<string> {
    if segs == [] then [] else Tokens(segs[0]) + Flat(segs[1..])
  }

  /** The values of the pairs of flag `c`, in order. */
  function Values(segs: seq<Seg>, c: char): seq<string> {
    if segs == [] then []
    else (if segs[0].Pair? && segs[0].flag == c then [segs[0].value] else []) + Values(segs[1..], c)
  }

  function Singles(segs: seq<Seg>): seq<string> {
    if segs == [] then []
    else (if segs[0].Single? then [segs[0].token] else []) + Singles(segs[1..])
  }

  function KeepLast(segs: seq<Seg>): seq<Seg> {
    if segs == [] then []
    else if segs[0].Pair? && Values(segs[1..], segs[0].flag) != [] then KeepLast(segs[1..])
    else [segs[0]] + KeepLast(segs[1..])
  }

  function Collapse(args: seq<string>, repeats: set<char>): seq<string> {
    Flat(KeepLast(Segs(args, repeats)))
  }

  lemma CollapseSingle(t: string, rest: seq<string>, repeats: set<char>)
    requires rest == [] || ExactShortFlag(t, repeats).None?
    ensures Segs([t] + rest, repeats) == [Single(t)] + Segs(rest, repeats)
    ensures Collapse([t] + rest, repeats) == [t] + Collapse(rest, repeats)
  {
    assert ([t] + rest)[1..] == rest;
    var segs := Segs([t] + rest, repeats);
    assert segs[1..] == Segs(rest, repeats);
    var kept := KeepLast(segs);
    assert kept[1..] == KeepLast(Segs(rest, repeats));
  }

  lemma CollapsePair(t: string, v: string, rest: seq<string>, repeats: set<char>)
    requires ExactShortFlag(t, repeats).Some?
    ensures Segs([t, v] + rest, repeats) == [Pair(t[1], v)] + Segs(rest, repeats)
    ensures Collapse([t, v] + rest, repeats) ==
            (if Values(Segs(rest, repeats), t[1]) != [] then [] else [t, v]) + Collapse(rest, repeats)
  {
    assert ([t, v] + rest)[2..] == rest;
    var segs := Segs([t, v] + rest, repeats);
    assert segs[1..] == Segs(rest, repeats);
    assert t == ['-', t[1]];
    if Values(Segs(rest, repeats), t[1]) == [] {
      assert KeepLast(segs)[1..] == KeepLast(Segs(rest, repeats));
    }
  }

  // ---------------------------------------------------------------------------------
  // The loops
  // ---------------------------------------------------------------------------------

  /** The flag positions found by the scan from index `i`. */
  function Scan(args: seq<string>, repeats: set<char>, i: nat): seq<(char, nat)>
    requires i <= |args|
    decreases |args| - i
  {
    if i + 1 >= |args| then []
    else if ExactShortFlag(args[i], repeats).Some? then [(args[i][1], i)] + Scan(args, repeats, i + 2)
    else Scan(args, repeats, i + 1)
  }

  function Positions(ps: seq<(char, nat)>, c: char): seq<nat> {
    if ps == [] then [] else (if ps[0].0 == c then [ps[0].1] else []) + Positions(ps[1..], c)
  }

  /** Both indexes of every pair that is followed by another pair of its flag. */
  function Dropped(ps: seq<(char, nat)>): set<nat> {
    if ps == [] then {}
    else (if Positions(ps[1..], ps[0].0) != [] then {ps[0].1, ps[0].1 + 1} else {}) + Dropped(ps[1..])
  }

  function Outside(args: seq<string>, drop: set<nat>, i: nat): seq<string>
    requires i <= |args|
    decreases |args| - i
  {
    if i == |args| then []
    else (if i in drop then [] else [args[i]]) + Outside(args, drop, i + 1)
  }

  lemma {:induction false} PositionsAppend(ps: seq<(char, nat)>, p: (char, nat), c: char)
    ensures Positions(ps + [p], c) == Positions(ps, c) + (if p.0 == c then [p.1] else [])
  {
    if ps != [] {
      PositionsAppend(ps[1..], p, c);
      assert (ps + [p])[1..] == ps[1..] + [p];
    } else {
      assert ps + [p] == [p];
    }
  }

  ghost predicate Superseded(ps: seq<(char, nat)>, c: char, p: nat) {
    var at := Positions(ps, c);
    at != [] && exists k | 0 <= k < |at| - 1 :: p == at[k] || p == at[k] + 1
  }

  lemma SupersededCons(ps: seq<(char, nat)>, c: char, p: nat)
    requires ps != []
    ensures Superseded(ps, c, p) <==>
            Superseded(ps[1..], c, p) ||
            (ps[0].0 == c && Positions(ps[1..], c) != [] && (p == ps[0].1 || p == ps[0].1 + 1))
  {
    var at, later := Positions(ps, c), Positions(ps[1..], c);
    if ps[0].0 == c {
      assert at == [ps[0].1] + later;
      assert forall k | 0 <= k < |later| :: at[k + 1] == later[k];
      if Superseded(ps[1..], c, p) {
        var k :| 0 <= k < |later| - 1 && (p == later[k] || p == later[k] + 1);
        assert at[k + 1] == later[k];
      }
      if Superseded(ps, c, p) {
        var k :| 0 <= k < |at| - 1 && (p == at[k] || p == at[k] + 1);
        if k > 0 { assert later[k - 1] == at[k]; }
      }
      if later != [] && (p == ps[0].1 || p == ps[0].1 + 1) {
        assert at[0] == ps[0].1 && 0 < |at| - 1;
      }
    } else {
      assert at == later;
    }
  }

  lemma {:induction false} DroppedIffSuperseded(ps: seq<(char, nat)>, p: nat)
    ensures p in Dropped(ps) <==> exists c :: Superseded(ps, c, p)
  {
    if ps != [] {
      DroppedIffSuperseded(ps[1..], p);
      forall c ensures Superseded(ps, c, p) <==>
                       Superseded(ps[1..], c, p) ||
                       (ps[0].0 == c && Positions(ps[1..], c) != [] && (p == ps[0].1 || p == ps[0].1 + 1)) {
        SupersededCons(ps, c, p);
      }
      if p in Dropped(ps) && p !in Dropped(ps[1..]) { assert Superseded(ps, ps[0].0, p); }
    }
  }

  lemma {:induction false} ScanSegs(args: seq<string>, repeats: set<char>, i: nat, c: char)
    requires i <= |args|
    ensures Values(Segs(args[i..], repeats), c) == [] <==> Positions(Scan(args, repeats, i), c) == []
    ensures forall p | p in Dropped(Scan(args, repeats, i)) :: i <= p
    decreases |args| - i
  {
    if i + 1 >= |args| {
      if i < |args| { assert args[i..] == [args[i]]; }
    } else {
      assert args[i..][0] == args[i] && args[i..][1..] == args[i + 1..] && args[i..][2..] == args[i + 2..];
      if ExactShortFlag(args[i], repeats).Some? {
        ScanSegs(args, repeats, i + 2, c);
      } else {
        ScanSegs(args, repeats, i + 1, c);
      }
    }
  }

  lemma DroppedPair(args: seq<string>, repeats: set<char>, i: nat)
    requires i + 1 < |args| && ExactShortFlag(args[i], repeats).Some?
    ensures var later := Values(Segs(args[i + 2..], repeats), args[i][1]) != [];
            var drop := Dropped(Scan(args, repeats, i));
            && (i in drop <==> later)
            && (i + 1 in drop <==> later)
            && forall p | i + 2 <= p :: p in drop <==> p in Dropped(Scan(args, repeats, i + 2))
  {
    ScanSegs(args, repeats, i + 2, args[i][1]);
    var ps := Scan(args, repeats, i);
    assert ps[0] == (args[i][1], i) && ps[1..] == Scan(args, repeats, i + 2);
  }

  /** A pair at `i` is kept or dropped as a whole. */
  lemma OutsidePair(args: seq<string>, repeats: set<char>, drop: set<nat>, i: nat)
    requires i + 1 < |args| && ExactShortFlag(args[i], repeats).Some?
    requires i in drop <==> Values(Segs(args[i + 2..], repeats), args[i][1]) != []
    requires i in drop <==> i + 1 in drop
    requires Outside(args, drop, i + 2) == Collapse(args[i + 2..], repeats)
    ensures Outside(args, drop, i) == Collapse(args[i..], repeats)
  {
    var t, v, rest := args[i], args[i + 1], args[i + 2..];
    assert args[i..] == [t, v] + rest;
    CollapsePair(t, v, rest, repeats);
    OutsideTwo(args, drop, i);
  }

  lemma OutsideTwo(args: seq<string>, drop: set<nat>, i: nat)
    requires i + 1 < |args| && (i in drop <==> i + 1 in drop)
    ensures Outside(args, drop, i) == (if i in drop then [] else [args[i], args[i + 1]]) + Outside(args, drop, i + 2)
  {
    var more := Outside(args, drop, i + 2);
    assert Outside(args, drop, i + 1) == (if i in drop then [] else [args[i + 1]]) + more;
    if i in drop {
      assert [] + ([] + more) == [] + more;
    } else {
      assert [args[i]] + ([args[i + 1]] + more) == [args[i], args[i + 1]] + more;
    }
  }

  lemma {:induction false} OutsideIsCollapse(args: seq<string>, repeats: set<char>, drop: set<nat>, i: nat)
    requires i <= |args|
    requires forall p | i <= p :: p in drop <==> p in Dropped(Scan(args, repeats, i))
    ensures Outside(args, drop, i) == Collapse(args[i..], repeats)
    decreases |args| - i
  {
    if i == |args| {
    } else if i + 1 < |args| && ExactShortFlag(args[i], repeats).Some? {
      DroppedPair(args, repeats, i);
      OutsideIsCollapse(args, repeats, drop, i + 2);
      OutsidePair(args, repeats, drop, i);
    } else {
      ScanSegs(args, repeats, i + 1, '-');
      OutsideIsCollapse(args, repeats, drop, i + 1);
      assert args[i..] == [args[i]] + args[i + 1..];
      CollapseSingle(args[i], args[i + 1..], repeats);
    }
  }

  method CollapseRepeatedShortValues(args: seq<string>, repeats: set<char>) returns (kept: seq<string>)
    ensures kept == Collapse(args, repeats)
  {
    if repeats == {} {
      NoRepeats(args);
      return args;
    }
    var occurrences := Occurrences(args, repeats);
    var drop := DropIndexes(occurrences, Scan(args, repeats, 0));
    forall p: nat ensures p in drop <==> p in Dropped(Scan(args, repeats, 0)) {
      DroppedIffSuperseded(Scan(args, repeats, 0), p);
    }
    OutsideIsCollapse(args, repeats, drop, 0);
    assert args[0..] == args;
    kept := WithoutIndexes(args, drop);
  }

  method WithoutIndexes(args: seq<string>, drop: set<nat>) returns (kept: seq<string>)
    ensures kept == Outside(args, drop, 0)
  {
    kept := [];
    var i := 0;
    while i < |args|
      invariant 0 <= i <= |args|
      invariant kept + Outside(args, drop, i) == Outside(args, drop, 0)
    {
      if i !in drop {
        kept := kept + [args[i]];
      }
      i := i + 1;
    }
  }

  /** The positions of each flag's pairs, flags without any left out. */
  ghost predicate Records(occurrences: map<char, seq<nat>>, ps: seq<(char, nat)>) {
    && (forall c :: c in occurrences <==> Positions(ps, c) != [])
    && (forall c | c in occurrences :: occurrences[c] == Positions(ps, c))
  }

  lemma RecordsAppend(occurrences: map<char, seq<nat>>, ps: seq<(char, nat)>, flag: char, index: nat)
    requires Records(occurrences, ps)
    ensures var at := (if flag in occurrences then occurrences[flag] else []) + [index];
            Records(occurrences[flag := at], ps + [(flag, index)])
  {
    forall c ensures Positions(ps + [(flag, index)], c) == Positions(ps, c) + (if flag == c then [index] else []) {
      PositionsAppend(ps, (flag, index), c);
    }
  }

  method Occurrences(args: seq<string>, repeats: set<char>) returns (occurrences: map<char, seq<nat>>)
    ensures Records(occurrences, Scan(args, repeats, 0))
  {
    occurrences := map[];
    ghost var found: seq<(char, nat)> := [];
    var index := 0;
    while index + 1 < |args|
      invariant 0 <= index <= |args|
      invariant Scan(args, repeats, 0) == found + Scan(args, repeats, index)
      invariant Records(occurrences, found)
    {
      var exact := ExactShortFlag(args[index], repeats);
      if exact.Some? {
        var flag := exact.value;
        RecordsAppend(occurrences, found, flag, index);
        occurrences := occurrences[flag := (if flag in occurrences then occurrences[flag] else []) + [index]];
        assert found + ([(flag, index)] + Scan(args, repeats, index + 2)) ==
               found + [(flag, index)] + Scan(args, repeats, index + 2);
        found := found + [(flag, index)];
        index := index + 2;
      } else {
        index := index + 1;
      }
    }
    assert found + [] == found;
  }

  method DropIndexes(occurrences: map<char, seq<nat>>, ghost all: seq<(char, nat)>) returns (drop: set<nat>)
    requires Records(occurrences, all)
    ensures forall p :: p in drop <==> exists c :: Superseded(all, c, p)
  {
    drop := {};
    var flags := occurrences.Keys;
    while flags != {}
      invariant flags <= occurrences.Keys
      invariant forall p :: p in drop <==> exists c | c in occurrences && c !in flags :: Superseded(all, c, p)
    {
      var c :| c in flags;
      var positions := occurrences[c];
      ghost var before := drop;
      var k := 0;
      while k < |positions| - 1
        invariant 0 <= k <= |positions| - 1
        invariant forall p :: p in drop <==> p in before || exists j | 0 <= j < k :: p == positions[j] || p == positions[j] + 1
      {
        drop := drop + {positions[k], positions[k] + 1};
        k := k + 1;
      }
      assert forall p :: p in drop <==> p in before || Superseded(all, c, p);
      flags := flags - {c};
    }
  }

  lemma {:induction false} NoRepeats(args: seq<string>)
    ensures Collapse(args, {}) == args
  {
    if args != [] { NoRepeats(args[1..]); }
  }

  // ---------------------------------------------------------------------------------
  // What is kept
  // ---------------------------------------------------------------------------------

  /** Only the very last token can be spelled like a repeat flag without being paired. */
  predicate Cut(segs: seq<Seg>, repeats: set<char>) {
    if segs == [] then true
    else
      && (segs[0].Pair? ==> segs[0].flag in repeats && segs[0].flag != '-')
      && (segs[0].Single? && ExactShortFlag(segs[0].token, repeats).Some? ==> |segs| == 1)
      && Cut(segs[1..], repeats)
  }

  lemma SegsCons(seg: Seg, segs: seq<Seg>, repeats: set<char>)
    ensures Flat([seg] + segs) == Tokens(seg) + Flat(segs)
    ensures Cut([seg] + segs, repeats) <==>
            && (seg.Pair? ==> seg.flag in repeats && seg.flag != '-')
            && (seg.Single? && ExactShortFlag(seg.token, repeats).Some? ==> segs == [])
            && Cut(segs, repeats)
  {
    assert ([seg] + segs)[1..] == segs;
  }

  lemma {:induction false} FlatSegs(args: seq<string>, repeats: set<char>)
    ensures Flat(Segs(args, repeats)) == args
    ensures Cut(Segs(args, repeats), repeats)
    ensures args != [] ==> Segs(args, repeats) != []
  {
    if args != [] {
      if |args| > 1 && ExactShortFlag(args[0], repeats).Some? {
        FlatSegs(args[2..], repeats);
        assert args[0] == ['-', args[0][1]];
        assert args == [args[0], args[1]] + args[2..];
        SegsCons(Pair(args[0][1], args[1]), Segs(args[2..], repeats), repeats);
      } else {
        FlatSegs(args[1..], repeats);
        assert args == [args[0]] + args[1..];
        SegsCons(Single(args[0]), Segs(args[1..], repeats), repeats);
        if |args| == 1 { assert Segs(args[1..], repeats) == []; }
      }
    }
  }

  lemma {:induction false} SegsFlat(segs: seq<Seg>, repeats: set<char>)
    requires Cut(segs, repeats)
    ensures Segs(Flat(segs), repeats) == segs
    ensures segs != [] ==> Flat(segs) != []
  {
    if segs != [] {
      SegsFlat(segs[1..], repeats);
      var rest := Flat(segs[1..]);
      if segs[0].Pair? {
        assert (Tokens(segs[0]) + rest)[2..] == rest;
      } else {
        assert ([segs[0].token] + rest)[1..] == rest;
      }
    }
  }

  lemma {:induction false} KeepLastShape(segs: seq<Seg>, repeats: set<char>, c: char)
    requires Cut(segs, repeats)
    ensures Cut(KeepLast(segs), repeats)
    ensures Singles(KeepLast(segs)) == Singles(segs)
    ensures var vs := Values(segs, c); Values(KeepLast(segs), c) == if vs == [] then [] else [vs[|vs| - 1]]
  {
    KeepLastCut(segs, repeats);
    KeepLastSingles(segs);
    KeepLastValues(segs, c);
  }

  lemma {:induction false} KeepLastCut(segs: seq<Seg>, repeats: set<char>)
    requires Cut(segs, repeats)
    ensures Cut(KeepLast(segs), repeats)
    ensures |KeepLast(segs)| <= |segs| && (segs != [] ==> KeepLast(segs) != [])
  {
    if segs != [] {
      KeepLastCut(segs[1..], repeats);
      if |segs| == 1 { assert KeepLast(segs) == segs; }
    }
  }

  lemma {:induction false} KeepLastSingles(segs: seq<Seg>)
    ensures Singles(KeepLast(segs)) == Singles(segs)
  {
    if segs != [] {
      KeepLastSingles(segs[1..]);
      assert ([segs[0]] + KeepLast(segs[1..]))[1..] == KeepLast(segs[1..]);
    }
  }

  lemma {:induction false} KeepLastValues(segs: seq<Seg>, c: char)
    ensures var vs := Values(segs, c); Values(KeepLast(segs), c) == if vs == [] then [] else [vs[|vs| - 1]]
  {
    if segs != [] {
      KeepLastValues(segs[1..], c);
      assert ([segs[0]] + KeepLast(segs[1..]))[1..] == KeepLast(segs[1..]);
    }
  }

  /**
    Collapsing keeps exactly the last pair of each repeat flag and every other token in order;
    the result cuts into just those, so nothing new is paired up by the removals.
   */
  lemma CollapseKeepsLastPairs(args: seq<string>, repeats: set<char>, c: char)
    ensures var before, after := Segs(args, repeats), Segs(Collapse(args, repeats), repeats);
            && Singles(after) == Singles(before)
            && var vs := Values(before, c); Values(after, c) == if vs == [] then [] else [vs[|vs| - 1]]
  {
    FlatSegs(args, repeats);
    KeepLastShape(Segs(args, repeats), repeats, c);
    SegsFlat(KeepLast(Segs(args, repeats)), repeats);
  }

  // ---------------------------------------------------------------------------------
  // The last-wins reading
  // ---------------------------------------------------------------------------------

  /** The last value of each repeat flag, all other events in order, and the operands. */
  datatype Settled = Settled(last: map<char, string>, others: seq<Event>, operands: seq<string>, status: Status)

  predicate IsRepeat(repeats: set<char>, e: Event) {
    e.Bound? && e.opt.Short? && e.opt.flag in repeats
  }

  function LastOf(repeats: set<char>, es: seq<Event>): map<char, string> {
    if es == [] then map[]
    else if IsRepeat(repeats, es[0]) then map[es[0].opt.flag := es[0].value] + LastOf(repeats, es[1..])
    else LastOf(repeats, es[1..])
  }

  function Others(repeats: set<char>, es: seq<Event>): seq<Event> {
    if es == [] then []
    else (if IsRepeat(repeats, es[0]) then [] else [es[0]]) + Others(repeats, es[1..])
  }

  function Settle(repeats: set<char>, r: Reading): Settled {
    if r.status.Complete? then Settled(LastOf(repeats, r.events), Others(repeats, r.events), r.operands, Complete)
    else Settled(map[], [], [], r.status)
  }

  /** The cut the strict reading makes: a pair is a repeat flag in option position with its value. */
  function ReadingSegs(f: Flags, repeats: set<char>, opts: seq<string>): seq<Seg> {
    if opts == [] then []
    else if EndsOptions(opts[0]) then AllSingle(opts)
    else
      match ReadToken(f, opts[0])
      case Stop(_, _) => Segs(opts, repeats)
      case Plain(_) => [Single(opts[0])] + ReadingSegs(f, repeats, opts[1..])
      case Wants(_, _) =>
        if |opts| == 1 then [Single(opts[0])]
        else if ExactShortFlag(opts[0], repeats).Some? then
          [Pair(opts[0][1], opts[1])] + ReadingSegs(f, repeats, opts[2..])
        else [Single(opts[0]), Single(opts[1])] + ReadingSegs(f, repeats, opts[2..])
  }

  function AllSingle(ts: seq<string>): seq<Seg> {
    if ts == [] then [] else [Single(ts[0])] + AllSingle(ts[1..])
  }

  /** No token but the last is an exact repeat flag. */
  predicate NonePaired(repeats: set<char>, ts: seq<string>) {
    forall i | 0 <= i < |ts| - 1 :: ExactShortFlag(ts[i], repeats).None?
  }

  lemma {:induction false} NonePairedIff(repeats: set<char>, ts: seq<string>)
    ensures Segs(ts, repeats) == AllSingle(ts) <==> NonePaired(repeats, ts)
  {
    if |ts| > 1 {
      var more := ts[1..];
      NonePairedIff(repeats, more);
      NonePairedCons(repeats, ts[0], more);
      assert ts == [ts[0]] + more;
      if ExactShortFlag(ts[0], repeats).Some? {
        assert Segs(ts, repeats)[0] != AllSingle(ts)[0];
      } else {
        ConsInjective(Single(ts[0]), Segs(more, repeats), AllSingle(more));
      }
    } else if ts != [] {
      assert Segs(ts, repeats) == [Single(ts[0])] + Segs(ts[1..], repeats) && ts[1..] == [];
    }
  }

  lemma NonePairedCons(repeats: set<char>, t: string, more: seq<string>)
    ensures NonePaired(repeats, [t] + more) <==>
            more == [] || (ExactShortFlag(t, repeats).None? && NonePaired(repeats, more))
  {
    var all := [t] + more;
    assert forall i | 0 <= i < |more| :: all[i + 1] == more[i];
    if more != [] && NonePaired(repeats, all) {
      assert all[0] == t;
      forall i | 0 <= i < |more| - 1 ensures ExactShortFlag(more[i], repeats).None? { assert all[i + 1] == more[i]; }
    }
  }

  /** No other option's value, unless it is the very last token, is spelled like a repeat flag. */
  predicate Clear(f: Flags, repeats: set<char>, opts: seq<string>) {
    if opts == [] then true
    else if EndsOptions(opts[0]) then NonePaired(repeats, opts)
    else
      match ReadToken(f, opts[0])
      case Stop(_, _) => true
      case Plain(_) => Clear(f, repeats, opts[1..])
      case Wants(_, _) =>
        || |opts| == 1
        || ((ExactShortFlag(opts[0], repeats).Some? || |opts| == 2 || ExactShortFlag(opts[1], repeats).None?)
            && Clear(f, repeats, opts[2..]))
  }

  lemma ExactRepeatWants(f: Flags, repeats: set<char>, t: string)
    requires f.Valid() && repeats <= f.vals && ExactShortFlag(t, repeats).Some?
    ensures !EndsOptions(t) && ReadToken(f, t) == Wants([], Short(t[1]))
  {
    assert t[1..] == [t[1]];
  }

  lemma {:induction false} AllSingleFlat(ts: seq<string>)
    ensures KeepLast(AllSingle(ts)) == AllSingle(ts) && Flat(AllSingle(ts)) == ts
    ensures forall c :: Values(AllSingle(ts), c) == []
  {
    if ts != [] {
      AllSingleFlat(ts[1..]);
      assert ts == [ts[0]] + ts[1..];
      assert AllSingle(ts)[1..] == AllSingle(ts[1..]);
    }
  }

  /** The scan, which does not track other options' values, makes the reading's cut exactly when clear. */
  lemma {:induction false} ScanIsReadingIffClear(f: Flags, repeats: set<char>, opts: seq<string>)
    requires f.Valid() && repeats <= f.vals
    ensures Segs(opts, repeats) == ReadingSegs(f, repeats, opts) <==> Clear(f, repeats, opts)
    decreases |opts|
  {
    if opts != [] && EndsOptions(opts[0]) {
      NonePairedIff(repeats, opts);
    } else if opts != [] {
      if ExactShortFlag(opts[0], repeats).Some? { ExactRepeatWants(f, repeats, opts[0]); }
      match ReadToken(f, opts[0])
      case Stop(_, _) =>
      case Plain(_) =>
        ScanIsReadingIffClear(f, repeats, opts[1..]);
        ConsInjective(Single(opts[0]), Segs(opts[1..], repeats), ReadingSegs(f, repeats, opts[1..]));
      case Wants(_, _) =>
        if |opts| > 1 {
          ScanIsReadingIffClear(f, repeats, opts[2..]);
          if ExactShortFlag(opts[0], repeats).Some? {
            ConsInjective(Pair(opts[0][1], opts[1]), Segs(opts[2..], repeats), ReadingSegs(f, repeats, opts[2..]));
          } else {
            TwoSingles(f, repeats, opts);
          }
        }
    }
  }

  lemma ConsInjective(s: Seg, a: seq<Seg>, b: seq<Seg>)
    ensures [s] + a == [s] + b <==> a == b
  {
    assert ([s] + a)[1..] == a && ([s] + b)[1..] == b;
  }

  lemma TwoSingles(f: Flags, repeats: set<char>, opts: seq<string>)
    requires |opts| > 1 && ExactShortFlag(opts[0], repeats).None?
    ensures Segs(opts, repeats) == [Single(opts[0]), Single(opts[1])] + ReadingSegs(f, repeats, opts[2..]) <==>
            (|opts| == 2 || ExactShortFlag(opts[1], repeats).None?) &&
            Segs(opts[2..], repeats) == ReadingSegs(f, repeats, opts[2..])
  {
    var r := ReadingSegs(f, repeats, opts[2..]);
    var later := Segs(opts[1..], repeats);
    assert opts[1..][1..] == opts[2..];
    assert [Single(opts[0]), Single(opts[1])] + r == [Single(opts[0])] + ([Single(opts[1])] + r);
    ConsInjective(Single(opts[0]), later, [Single(opts[1])] + r);
    if |opts| == 2 || ExactShortFlag(opts[1], repeats).None? {
      ConsInjective(Single(opts[1]), Segs(opts[2..], repeats), r);
    } else {
      assert later[0] != ([Single(opts[1])] + r)[0];
    }
  }

  lemma {:induction false} SettlePrepend(repeats: set<char>, es: seq<Event>, r: Reading, r': Reading)
    requires Settle(repeats, r) == Settle(repeats, r')
    ensures Settle(repeats, Prepend(es, r)) == Settle(repeats, Prepend(es, r'))
  {
    if es == [] {
      assert [] + r.events == r.events && [] + r'.events == r'.events;
    } else {
      SettlePrepend(repeats, es[1..], r, r');
      assert (es + r.events)[1..] == es[1..] + r.events;
      assert (es + r'.events)[1..] == es[1..] + r'.events;
    }
  }

  /** A pair found by a clear scan is an event of the reading, so an earlier one is overridden. */
  lemma {:induction false} PairIsRead(f: Flags, repeats: set<char>, opts: seq<string>, tail: seq<string>, c: char)
    requires f.Valid() && repeats <= f.vals && Clear(f, repeats, opts)
    requires Values(Segs(opts, repeats), c) != []
    requires Strict(f, opts + tail).status.Complete?
    ensures c in LastOf(repeats, Strict(f, opts + tail).events)
    decreases |opts|
  {
    var t := opts[0];
    if EndsOptions(t) {
      NonePairedIff(repeats, opts);
      AllSingleFlat(opts);
      assert false;
    } else {
      assert opts + tail == [t] + (opts[1..] + tail);
      StrictCons(f, t, opts[1..] + tail);
      if ExactShortFlag(t, repeats).Some? { ExactRepeatWants(f, repeats, t); }
      match ReadToken(f, t)
      case Stop(_, _) =>
      case Plain(es) =>
        PairIsRead(f, repeats, opts[1..], tail, c);
        LastOfAppend(repeats, es, Strict(f, opts[1..] + tail).events);
      case Wants(es, o) =>
        assert opts[1..][1..] == opts[2..];
        assert (opts[1..] + tail)[1..] == opts[2..] + tail;
        var later := Strict(f, opts[2..] + tail).events;
        if ExactShortFlag(t, repeats).Some? && t[1] == c {
          BoundIsLast(repeats, c, opts[1], later);
        } else {
          LastOfAppend(repeats, es + [Bound(o, opts[1])], later);
          PairIsRead(f, repeats, opts[2..], tail, c);
        }
    }
  }

  lemma BoundIsLast(repeats: set<char>, c: char, v: string, later: seq<Event>)
    requires c in repeats
    ensures c in LastOf(repeats, [] + [Bound(Short(c), v)] + later)
  {
    var es := [] + [Bound(Short(c), v)] + later;
    assert es[0] == Bound(Short(c), v) && es[1..] == later;
  }

  lemma {:induction false} LastOfAppend(repeats: set<char>, es: seq<Event>, later: seq<Event>)
    ensures LastOf(repeats, later).Keys <= LastOf(repeats, es + later).Keys
  {
    if es == [] {
      assert [] + later == later;
    } else {
      LastOfAppend(repeats, es[1..], later);
      assert (es + later)[1..] == es[1..] + later;
    }
  }

  lemma {:induction false} OverriddenEvent(repeats: set<char>, e: Event, r: Reading)
    requires IsRepeat(repeats, e)
    requires r.status.Complete? ==> e.opt.flag in LastOf(repeats, r.events)
    ensures Settle(repeats, Prepend([e], r)) == Settle(repeats, r)
  {
    assert ([e] + r.events)[1..] == r.events;
  }

  /** With a clear scan the last-wins reading is unchanged, whatever operands follow. */
  lemma {:induction false} CollapseKeepsReading(f: Flags, repeats: set<char>, opts: seq<string>, tail: seq<string>)
    requires f.Valid() && repeats <= f.vals && Clear(f, repeats, opts)
    ensures Settle(repeats, Strict(f, Collapse(opts, repeats) + tail)) == Settle(repeats, Strict(f, opts + tail))
    decreases |opts|
  {
    if opts == [] {
    } else if EndsOptions(opts[0]) {
      NonePairedIff(repeats, opts);
      AllSingleFlat(opts);
    } else if |opts| > 1 && ReadToken(f, opts[0]).Wants? {
      ValueStep(f, repeats, opts, tail);
    } else {
      var t, rest := opts[0], opts[1..];
      if |opts| > 1 && ExactShortFlag(t, repeats).Some? { ExactRepeatWants(f, repeats, t); }
      assert opts == [t] + rest;
      CollapseSingle(t, rest, repeats);
      if rest != [] && ReadToken(f, t).Plain? { CollapseKeepsReading(f, repeats, rest, tail); }
      TokenStep(f, repeats, t, rest, tail);
    }
  }

  lemma {:induction false} TokenStep(f: Flags, repeats: set<char>, t: string, rest: seq<string>, tail: seq<string>)
    requires !EndsOptions(t) && (rest == [] || !ReadToken(f, t).Wants?)
    requires rest != [] && ReadToken(f, t).Plain? ==>
               Settle(repeats, Strict(f, Collapse(rest, repeats) + tail)) == Settle(repeats, Strict(f, rest + tail))
    ensures Settle(repeats, Strict(f, [t] + Collapse(rest, repeats) + tail)) == Settle(repeats, Strict(f, [t] + rest + tail))
  {
    assert [t] + Collapse(rest, repeats) + tail == [t] + (Collapse(rest, repeats) + tail);
    assert [t] + rest + tail == [t] + (rest + tail);
    if rest != [] {
      StrictCons(f, t, Collapse(rest, repeats) + tail);
      StrictCons(f, t, rest + tail);
      if ReadToken(f, t).Plain? {
        SettlePrepend(repeats, ReadToken(f, t).events,
                      Strict(f, Collapse(rest, repeats) + tail), Strict(f, rest + tail));
      }
    }
  }

  lemma {:induction false} ValueStep(f: Flags, repeats: set<char>, opts: seq<string>, tail: seq<string>)
    requires f.Valid() && repeats <= f.vals && Clear(f, repeats, opts)
    requires |opts| > 1 && !EndsOptions(opts[0]) && ReadToken(f, opts[0]).Wants?
    ensures Settle(repeats, Strict(f, Collapse(opts, repeats) + tail)) == Settle(repeats, Strict(f, opts + tail))
    decreases |opts|, 0
  {
    var t, v, rest := opts[0], opts[1], opts[2..];
    assert opts[1..][1..] == rest && opts == [t, v] + rest;
    CollapseKeepsReading(f, repeats, rest, tail);
    if ExactShortFlag(t, repeats).Some? && Values(Segs(rest, repeats), t[1]) != [] {
      OverriddenPair(f, repeats, t, v, rest, tail);
    } else {
      KeptValue(f, repeats, opts, tail);
    }
  }

  lemma KeptValue(f: Flags, repeats: set<char>, opts: seq<string>, tail: seq<string>)
    requires Clear(f, repeats, opts) && |opts| > 1 && !EndsOptions(opts[0]) && ReadToken(f, opts[0]).Wants?
    requires ExactShortFlag(opts[0], repeats).None? || Values(Segs(opts[2..], repeats), opts[0][1]) == []
    requires Settle(repeats, Strict(f, Collapse(opts[2..], repeats) + tail)) == Settle(repeats, Strict(f, opts[2..] + tail))
    ensures Settle(repeats, Strict(f, Collapse(opts, repeats) + tail)) == Settle(repeats, Strict(f, opts + tail))
  {
    var two, rest := [opts[0], opts[1]], opts[2..];
    CollapseKept(f, repeats, opts);
    Regroup(two, Collapse(rest, repeats), tail);
    Regroup(two, rest, tail);
    assert opts == two + rest;
    KeptPair(f, repeats, opts[0], opts[1], rest, tail);
  }

  lemma Regroup(a: seq<string>, b: seq<string>, c: seq<string>)
    ensures a + b + c == a + (b + c)
  {
  }

  /** Collapsing keeps a value option that is no repeat, or the last of its repeat flag. */
  lemma CollapseKept(f: Flags, repeats: set<char>, opts: seq<string>)
    requires Clear(f, repeats, opts) && |opts| > 1 && !EndsOptions(opts[0]) && ReadToken(f, opts[0]).Wants?
    requires ExactShortFlag(opts[0], repeats).None? || Values(Segs(opts[2..], repeats), opts[0][1]) == []
    ensures Collapse(opts, repeats) == [opts[0], opts[1]] + Collapse(opts[2..], repeats)
  {
    var t, v, rest := opts[0], opts[1], opts[2..];
    if ExactShortFlag(t, repeats).Some? {
      assert opts == [t, v] + rest;
      CollapsePair(t, v, rest, repeats);
    } else {
      assert opts == [t] + ([v] + rest) && opts[1..][1..] == rest;
      CollapseSingle(t, [v] + rest, repeats);
      CollapseSingle(v, rest, repeats);
    }
  }

  /** A value option in front changes nothing that the rest did not. */
  lemma KeptPair(f: Flags, repeats: set<char>, t: string, v: string, rest: seq<string>, tail: seq<string>)
    requires !EndsOptions(t) && ReadToken(f, t).Wants?
    requires Settle(repeats, Strict(f, Collapse(rest, repeats) + tail)) == Settle(repeats, Strict(f, rest + tail))
    ensures Settle(repeats, Strict(f, [t, v] + (Collapse(rest, repeats) + tail))) ==
            Settle(repeats, Strict(f, [t, v] + (rest + tail)))
  {
    var es := ReadToken(f, t).events + [Bound(ReadToken(f, t).opt, v)];
    SettlePrepend(repeats, es, Strict(f, Collapse(rest, repeats) + tail), Strict(f, rest + tail));
    ReadValue(f, t, v, rest + tail);
    ReadValue(f, t, v, Collapse(rest, repeats) + tail);
  }

  /** A repeat that a later one overrides may go. */
  lemma OverriddenPair(f: Flags, repeats: set<char>, t: string, v: string, rest: seq<string>, tail: seq<string>)
    requires f.Valid() && repeats <= f.vals && Clear(f, repeats, rest)
    requires ExactShortFlag(t, repeats).Some? && Values(Segs(rest, repeats), t[1]) != []
    requires Settle(repeats, Strict(f, Collapse(rest, repeats) + tail)) == Settle(repeats, Strict(f, rest + tail))
    ensures Settle(repeats, Strict(f, Collapse([t, v] + rest, repeats) + tail)) ==
            Settle(repeats, Strict(f, [t, v] + rest + tail))
  {
    CollapsePair(t, v, rest, repeats);
    assert [] + Collapse(rest, repeats) == Collapse(rest, repeats);
    Regroup([t, v], rest, tail);
    OverriddenReading(f, repeats, t, v, rest, tail);
  }

  lemma OverriddenReading(f: Flags, repeats: set<char>, t: string, v: string, rest: seq<string>, tail: seq<string>)
    requires f.Valid() && repeats <= f.vals && Clear(f, repeats, rest)
    requires ExactShortFlag(t, repeats).Some? && Values(Segs(rest, repeats), t[1]) != []
    ensures Settle(repeats, Strict(f, [t, v] + (rest + tail))) == Settle(repeats, Strict(f, rest + tail))
  {
    var now, e := Strict(f, rest + tail), Bound(Short(t[1]), v);
    ExactRepeatWants(f, repeats, t);
    ReadValue(f, t, v, rest + tail);
    assert ReadToken(f, t).events + [e] == [e];
    if now.status.Complete? { PairIsRead(f, repeats, rest, tail, t[1]); }
    OverriddenEvent(repeats, e, now);
  }

  lemma ReadValue(f: Flags, t: string, v: string, rest: seq<string>)
    requires !EndsOptions(t) && ReadToken(f, t).Wants?
    ensures Strict(f, [t, v] + rest) ==
            Prepend(ReadToken(f, t).events + [Bound(ReadToken(f, t).opt, v)], Strict(f, rest))
  {
    assert [t, v] + rest == [t] + ([v] + rest);
    StrictCons(f, t, [v] + rest);
    assert ([v] + rest)[1..] == rest;
  }

  // ---------------------------------------------------------------------------------
  // The whole rewriting
  // ---------------------------------------------------------------------------------

  function NormalizeAll(f: Flags, repeats: set<char>, argv: seq<string>): seq<string> {
    if f.vals == {} then argv
    else Collapse(Norm(f, argv).options, repeats) + Norm(f, argv).trailing
  }

  method NormalizeAttachedShortValues(f: Flags, repeats: set<char>, args: seq<string>) returns (r: seq<string>)
    ensures r == NormalizeAll(f, repeats, args)
  {
    if f.vals == {} {
      return args;
    }
    var options, trailing := NormalizeOptions(f, args);
    var normalized := CollapseRepeatedShortValues(options, repeats);
    r := normalized + trailing;
  }

  /** No option tokens are left: the command line is at its end, an operand or `--`. */
  predicate Over(ts: seq<string>) {
    ts == [] || EndsOptions(ts[0])
  }

  /** A value that the collapse scan does not take for a repeat flag with a value of its own. */
  predicate Harmless(repeats: set<char>, v: string, after: seq<string>) {
    Over(after) || ExactShortFlag(v, repeats).None?
  }

  /**
    `Clear` on the command line itself: no option but a repeat has a value, attached or separate, that is
    spelled like a repeat flag and is followed by another option token.
   */
  predicate ClearLine(f: Flags, repeats: set<char>, argv: seq<string>)
    decreases |argv|
  {
    if Over(argv) then true
    else
      var rest := argv[1..];
      match ReadToken(f, argv[0])
      case Stop(_, _) => true
      case Plain(es) =>
        && (es == [] || !es[|es| - 1].Bound? || IsRepeat(repeats, es[|es| - 1]) || Harmless(repeats, es[|es| - 1].value, rest))
        && ClearLine(f, repeats, rest)
      case Wants(_, o) =>
        if o.LongName? then ClearUnseen(f, repeats, false, rest)
        else
          || rest == []
          || ((o.flag in repeats || Harmless(repeats, rest[0], rest[1..])) && ClearLine(f, repeats, rest[1..]))
  }

  /** After an option whose value, the first of `ts`, the splitting scan takes for an option token. */
  predicate ClearUnseen(f: Flags, repeats: set<char>, repeated: bool, ts: seq<string>)
    decreases |ts|
  {
    if Over(ts) then true
    else if ExactShortFlag(ts[0], f.vals).None? then ClearLine(f, repeats, ts[1..])
    else
      && (repeated || |ts| == 1 || ExactShortFlag(ts[0], repeats).None?)
      && ClearCopied(f, repeats, ts[1..])
  }

  /** Where the first of `ts` is an option token that the splitting scan copies as a value. */
  predicate ClearCopied(f: Flags, repeats: set<char>, ts: seq<string>)
    decreases |ts|
  {
    if ts == [] then true
    else if EndsOptions(ts[0]) then Spared(f, repeats, ts[1..])
    else
      match ReadToken(f, ts[0])
      case Stop(_, _) => true
      case Plain(_) => ClearLine(f, repeats, ts[1..])
      case Wants(_, _) => ClearUnseen(f, repeats, ExactShortFlag(ts[0], repeats).Some?, ts[1..])
  }

  /** Operands that the splitting scan takes for options: none but the last of these is a repeat flag. */
  predicate Spared(f: Flags, repeats: set<char>, ts: seq<string>) {
    if Over(ts) then true
    else if ExactShortFlag(ts[0], f.vals).None? then Spared(f, repeats, ts[1..])
    else
      || |ts| == 1
      || (ExactShortFlag(ts[0], repeats).None? && Harmless(repeats, ts[1], ts[2..]) && Spared(f, repeats, ts[2..]))
  }

  lemma NoOptionsLeft(f: Flags, ts: seq<string>)
    ensures Norm(f, ts).options == [] <==> Over(ts)
  {
    if !Over(ts) { EmitSome(f, ts[0]); }
  }

  lemma EmitSome(f: Flags, t: string)
    requires !EndsOptions(t)
    ensures Emit(f, t).0 != []
  {
    if Compact(f, t).Some? { CompactIffRead(f, t[1..]); }
  }

  lemma {:induction false} SparedIff(f: Flags, repeats: set<char>, ts: seq<string>)
    requires f.Valid() && repeats <= f.vals && Untouched(f, ts)
    ensures NonePaired(repeats, Norm(f, ts).options) <==> Spared(f, repeats, ts)
    decreases |ts|
  {
    if !Over(ts) {
      var t := ts[0];
      if ExactShortFlag(t, f.vals).None? {
        SparedIff(f, repeats, ts[1..]);
        assert Norm(f, ts).options == [t] + Norm(f, ts[1..]).options;
        NonePairedCons(repeats, t, Norm(f, ts[1..]).options);
      } else if |ts| > 1 {
        var more := Norm(f, ts[2..]).options;
        assert ts[1..][1..] == ts[2..] && ts[1..][..1] == [ts[1]];
        SparedIff(f, repeats, ts[2..]);
        assert Norm(f, ts).options == [t] + ([ts[1]] + more);
        NonePairedCons(repeats, t, [ts[1]] + more);
        NonePairedCons(repeats, ts[1], more);
        NoOptionsLeft(f, ts[2..]);
      } else {
        assert Norm(f, ts).options == [t] + [];
      }
    }
  }

  /** `Clear` past an option token that takes no separate value. */
  lemma ClearPlain(f: Flags, repeats: set<char>, t: string, more: seq<string>)
    requires !EndsOptions(t) && ReadToken(f, t).Plain?
    ensures Clear(f, repeats, [t] + more) <==> Clear(f, repeats, more)
  {
    assert ([t] + more)[1..] == more;
  }

  /** `Clear` past an option token and its separate value. */
  lemma ClearWants(f: Flags, repeats: set<char>, t: string, v: string, more: seq<string>)
    requires !EndsOptions(t) && ReadToken(f, t).Wants?
    ensures Clear(f, repeats, [t, v] + more) <==>
            (ExactShortFlag(t, repeats).Some? || more == [] || ExactShortFlag(v, repeats).None?) && Clear(f, repeats, more)
  {
    assert ([t, v] + more)[2..] == more;
  }

  lemma ClearLast(f: Flags, repeats: set<char>, t: string)
    requires !EndsOptions(t) && ReadToken(f, t).Wants?
    ensures Clear(f, repeats, [t])
  {
  }

  lemma LoneFlagToken(f: Flags, c: char)
    requires f.Valid() && c in f.bools + f.vals
    ensures !EndsOptions(['-', c])
    ensures ReadToken(f, ['-', c]) == if c in f.bools then Plain([Flag(c)]) else Wants([], Short(c))
  {
    var t := ['-', c];
    assert t[1..] == [c] && t[1..][1..] == "";
    assert ReadCluster(f, "") == Plain([]);
    assert [Flag(c)] + [] == [Flag(c)];
  }

  /** `Clear` past the parts of a cluster that needs no further token. */
  lemma {:induction false} ClearParts(f: Flags, repeats: set<char>, cs: string, more: seq<string>)
    requires f.Valid() && repeats <= f.vals && CompactParts(f, cs).Some? && !CompactParts(f, cs).value.1
    ensures ReadCluster(f, cs).Plain?
    ensures var es := ReadCluster(f, cs).events;
            Clear(f, repeats, CompactParts(f, cs).value.0 + more) <==>
            && (es == [] || !es[|es| - 1].Bound? || IsRepeat(repeats, es[|es| - 1]) || more == []
                || ExactShortFlag(es[|es| - 1].value, repeats).None?)
            && Clear(f, repeats, more)
  {
    if cs == "" {
      assert CompactParts(f, cs).value.0 + more == more;
    } else {
      var t := ['-', cs[0]];
      LoneFlagToken(f, cs[0]);
      if cs[0] in f.bools {
        ClearParts(f, repeats, cs[1..], more);
        var parts := CompactParts(f, cs[1..]).value.0;
        assert CompactParts(f, cs).value.0 + more == [t] + (parts + more);
        ClearPlain(f, repeats, t, parts + more);
        LastAfterFlag(cs[0], ReadCluster(f, cs[1..]).events);
      } else {
        assert CompactParts(f, cs).value.0 == [t, cs[1..]];
        ClearWants(f, repeats, t, cs[1..], more);
      }
    }
  }

  lemma LastAfterFlag(c: char, es: seq<Event>)
    ensures var all := [Flag(c)] + es; all[|all| - 1] == if es == [] then Flag(c) else es[|es| - 1]
  {
  }

  /** `Clear` past the parts of a cluster whose last flag takes the next token. */
  lemma {:induction false} ClearNeeding(f: Flags, repeats: set<char>, cs: string, v: string, more: seq<string>)
    requires f.Valid() && repeats <= f.vals && CompactParts(f, cs).Some? && CompactParts(f, cs).value.1
    ensures ReadCluster(f, cs).Wants? && ReadCluster(f, cs).opt.Short?
    ensures Clear(f, repeats, CompactParts(f, cs).value.0)
    ensures Clear(f, repeats, CompactParts(f, cs).value.0 + ([v] + more)) <==>
            && (ReadCluster(f, cs).opt.flag in repeats || more == [] || ExactShortFlag(v, repeats).None?)
            && Clear(f, repeats, more)
  {
    var t := ['-', cs[0]];
    LoneFlagToken(f, cs[0]);
    if cs[0] in f.bools {
      ClearNeeding(f, repeats, cs[1..], v, more);
      var parts := CompactParts(f, cs[1..]).value.0;
      assert CompactParts(f, cs).value.0 + ([v] + more) == [t] + (parts + ([v] + more));
      ClearPlain(f, repeats, t, parts + ([v] + more));
      ClearPlain(f, repeats, t, parts);
    } else {
      assert CompactParts(f, cs).value.0 + ([v] + more) == [t, v] + more;
      ClearWants(f, repeats, t, v, more);
      ClearLast(f, repeats, t);
    }
  }

  /** On a command line whose scans stay in step the two conditions are one. */
  lemma {:induction false} ClearLineIff(f: Flags, repeats: set<char>, argv: seq<string>)
    requires f.Valid() && repeats <= f.vals && InStep(f, argv)
    ensures Clear(f, repeats, Norm(f, argv).options) <==> ClearLine(f, repeats, argv)
    decreases |argv|, 2
  {
    if !Over(argv) {
      var t, rest := argv[0], argv[1..];
      if t[1] == '-' {
        LongClearIff(f, repeats, argv);
      } else if ReadToken(f, t).Stop? {
        StopClear(f, repeats, argv);
      } else {
        ShortClearIff(f, repeats, argv);
      }
    }
  }

  lemma StopClear(f: Flags, repeats: set<char>, argv: seq<string>)
    requires f.Valid() && argv != [] && !EndsOptions(argv[0]) && ReadToken(f, argv[0]).Stop?
    ensures Clear(f, repeats, Norm(f, argv).options)
  {
    if argv[0][1] != '-' { CompactIffRead(f, argv[0][1..]); }
    assert Norm(f, argv).options[0] == argv[0];
  }

  /** The options of a command line that starts with a short cluster. */
  lemma ShortOptions(f: Flags, argv: seq<string>)
    requires f.Valid() && argv != [] && !EndsOptions(argv[0]) && argv[0][1] != '-' && !ReadToken(f, argv[0]).Stop?
    ensures CompactParts(f, argv[0][1..]).Some? && ReadToken(f, argv[0]) == ReadCluster(f, argv[0][1..])
    ensures var p := CompactParts(f, argv[0][1..]).value;
            Norm(f, argv).options == p.0 + (if p.1 then Resume(f, argv[1..]).options else Norm(f, argv[1..]).options)
  {
    var t := argv[0];
    CompactIffRead(f, t[1..]);
    if |t| == 2 {
      assert t[1..] == [t[1]] && t == ['-', t[1]] && CompactParts(f, "") == Some(([], false));
      assert [t] + [] == [t];
    }
  }

  lemma {:induction false} ShortClearIff(f: Flags, repeats: set<char>, argv: seq<string>)
    requires f.Valid() && repeats <= f.vals && InStep(f, argv)
    requires argv != [] && !EndsOptions(argv[0]) && argv[0][1] != '-' && !ReadToken(f, argv[0]).Stop?
    ensures Clear(f, repeats, Norm(f, argv).options) <==> ClearLine(f, repeats, argv)
    decreases |argv|, 1
  {
    var cs, rest := argv[0][1..], argv[1..];
    ShortOptions(f, argv);
    PartsShape(f, cs);
    if !CompactParts(f, cs).value.1 {
      ClearParts(f, repeats, cs, Norm(f, rest).options);
      NoOptionsLeft(f, rest);
      ClearLineIff(f, repeats, rest);
    } else if rest == [] {
      ClearNeeding(f, repeats, cs, "", []);
      assert CompactParts(f, cs).value.0 + [] == CompactParts(f, cs).value.0;
    } else {
      assert argv[2..] == rest[1..] && rest[..1] == [rest[0]];
      ClearNeeding(f, repeats, cs, rest[0], Norm(f, rest[1..]).options);
      NoOptionsLeft(f, rest[1..]);
      ClearLineIff(f, repeats, rest[1..]);
    }
  }

  lemma {:induction false} LongClearIff(f: Flags, repeats: set<char>, argv: seq<string>)
    requires f.Valid() && repeats <= f.vals && InStep(f, argv)
    requires argv != [] && !EndsOptions(argv[0]) && argv[0][1] == '-'
    ensures Clear(f, repeats, Norm(f, argv).options) <==> ClearLine(f, repeats, argv)
    decreases |argv|, 1
  {
    var t, rest := argv[0], argv[1..];
    assert Norm(f, argv).options == [t] + Norm(f, rest).options;
    match ReadToken(f, t)
    case Stop(_, _) =>
    case Plain(_) =>
      ClearPlain(f, repeats, t, Norm(f, rest).options);
      ClearLineIff(f, repeats, rest);
    case Wants(_, _) =>
      if rest == [] {
        assert [t] + [] == [t];
      } else {
        UnseenClearIff(f, repeats, t, rest);
      }
  }

  lemma {:induction false} UnseenClearIff(f: Flags, repeats: set<char>, t: string, ts: seq<string>)
    requires f.Valid() && repeats <= f.vals && ts != [] && Misread(f, ts)
    requires !EndsOptions(t) && ReadToken(f, t).Wants?
    ensures Clear(f, repeats, [t] + Norm(f, ts).options) <==>
            ClearUnseen(f, repeats, ExactShortFlag(t, repeats).Some?, ts)
    decreases |ts|, 0
  {
    if Over(ts) {
      assert [t] + [] == [t];
      ClearLast(f, repeats, t);
    } else {
      var more := if ExactShortFlag(ts[0], f.vals).Some? then Resume(f, ts[1..]).options else Norm(f, ts[1..]).options;
      assert [t] + Norm(f, ts).options == [t, ts[0]] + more;
      ClearWants(f, repeats, t, ts[0], more);
      if ExactShortFlag(ts[0], f.vals).Some? {
        CopiedClearIff(f, repeats, ts[1..]);
      } else {
        ClearLineIff(f, repeats, ts[1..]);
      }
    }
  }

  lemma {:induction false} CopiedClearIff(f: Flags, repeats: set<char>, ts: seq<string>)
    requires f.Valid() && repeats <= f.vals && Copied(f, ts)
    ensures Clear(f, repeats, Resume(f, ts).options) <==> ClearCopied(f, repeats, ts)
    decreases |ts|, 3
  {
    if ts != [] {
      var t, more := ts[0], Norm(f, ts[1..]).options;
      assert Resume(f, ts).options == [t] + more;
      if EndsOptions(t) {
        SparedIff(f, repeats, ts[1..]);
        NonePairedCons(repeats, t, more);
        NoOptionsLeft(f, ts[1..]);
      } else {
        match ReadToken(f, t)
        case Stop(_, _) =>
        case Plain(_) =>
          ClearPlain(f, repeats, t, more);
          ClearLineIff(f, repeats, ts[1..]);
        case Wants(_, _) =>
          if |ts| == 1 {
            assert [t] + [] == [t];
          } else {
            UnseenClearIff(f, repeats, t, ts[1..]);
          }
      }
    }
  }

  /** Cluster splitting and collapsing together keep the last-wins reading of the original. */
  lemma NormalizeAllKeepsReading(f: Flags, repeats: set<char>, argv: seq<string>)
    requires f.Valid() && repeats <= f.vals
    requires InStep(f, argv) && ClearLine(f, repeats, argv)
    ensures Settle(repeats, Strict(f, NormalizeAll(f, repeats, argv))) == Settle(repeats, Strict(f, argv))
  {
    if f.vals != {} {
      ClearLineIff(f, repeats, argv);
      NormalizeKeepsReading(f, argv);
      CollapseKeepsReading(f, repeats, Norm(f, argv).options, Norm(f, argv).trailing);
    }
  }

  /** Without the guard a value is lost: in `-t a -n -t -d` the value of `-n` is taken for a repeat of `-t`. */
  lemma CollapseCanLoseAValue()
    ensures var f := Flags({'d'}, {'t', 'n'}, {'d', 't', 'n'}, {}, {});
            var opts := ["-t", "a", "-n", "-t", "-d"];
            && f.Valid()
            && Collapse(opts, {'t'}) == ["-n", "-t", "-d"]
            && Settle({'t'}, Strict(f, opts)).last == map['t' := "a"]
            && Settle({'t'}, Strict(f, Collapse(opts, {'t'}))).last == map[]
  {
    var f := Flags({'d'}, {'t', 'n'}, {'d', 't', 'n'}, {}, {});
    var opts := ["-t", "a", "-n", "-t", "-d"];
    LosingCollapse();
    LosingReadings(f);
  }

  lemma LosingCollapse()
    ensures Collapse(["-t", "a", "-n", "-t", "-d"], {'t'}) == ["-n", "-t", "-d"]
  {
    assert ["-t", "-d"] + [] == ["-t", "-d"];
    CollapsePair("-t", "-d", [], {'t'});
    assert ["-n"] + ["-t", "-d"] == ["-n", "-t", "-d"];
    CollapseSingle("-n", ["-t", "-d"], {'t'});
    assert ["-t", "a"] + ["-n", "-t", "-d"] == ["-t", "a", "-n", "-t", "-d"];
    CollapsePair("-t", "a", ["-n", "-t", "-d"], {'t'});
    assert Segs(["-n", "-t", "-d"], {'t'}) == [Single("-n"), Pair('t', "-d")];
    assert [Single("-n"), Pair('t', "-d")][1..] == [Pair('t', "-d")];
    assert Values([Pair('t', "-d")], 't') == ["-d"];
  }

  lemma LosingReadings(f: Flags)
    requires f == Flags({'d'}, {'t', 'n'}, {'d', 't', 'n'}, {}, {})
    ensures Settle({'t'}, Strict(f, ["-t", "a", "-n", "-t", "-d"])).last == map['t' := "a"]
    ensures Settle({'t'}, Strict(f, ["-n", "-t", "-d"])).last == map[]
  {
    var e, es := Bound(Short('t'), "a"), [Bound(Short('n'), "-t"), Flag('d')];
    LosingTail(f);
    LosingLast(e, es);
    assert "-t"[1..] == "t" && ReadCluster(f, "t") == Wants([], Short('t'));
    ReadValue(f, "-t", "a", ["-n", "-t", "-d"]);
    assert ["-t", "a"] + ["-n", "-t", "-d"] == ["-t", "a", "-n", "-t", "-d"];
    assert [] + [e] == [e];
  }

  lemma LosingTail(f: Flags)
    requires f == Flags({'d'}, {'t', 'n'}, {'d', 't', 'n'}, {}, {})
    ensures Strict(f, ["-n", "-t", "-d"]).events == [Bound(Short('n'), "-t"), Flag('d')]
  {
    assert "-d"[1..] == "d" && ReadCluster(f, "d") == Plain([Flag('d')]);
    assert Strict(f, ["-d"]) == Reading([Flag('d')], [], Complete);
    assert "-n"[1..] == "n" && ReadCluster(f, "n") == Wants([], Short('n'));
    ReadValue(f, "-n", "-t", ["-d"]);
    assert ["-n", "-t"] + ["-d"] == ["-n", "-t", "-d"];
  }

  lemma LosingLast(e: Event, es: seq<Event>)
    requires e == Bound(Short('t'), "a") && es == [Bound(Short('n'), "-t"), Flag('d')]
    ensures LastOf({'t'}, es) == map[] && LastOf({'t'}, [e] + es) == map['t' := "a"]
  {
    assert es[1..] == [Flag('d')] && LastOf({'t'}, [Flag('d')]) == map[];
    assert ([e] + es)[1..] == es;
  }
}
