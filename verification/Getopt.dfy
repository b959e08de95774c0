/**
  Reference readings of a command line.

  `Strict` is the POSIX reading (section 12.2 of POSIX.1-2017, Utility Syntax
  Guidelines): options stop at the first operand or after `--`.
  `Permissive` is the reading of a parser that keeps recognising options after an
  operand, up to `--`.  Both treat a flag they cannot read as an absorbing error.
 */
module Getopt {

  /**
    The declared flags of one command: `bools` take no value, `vals` require one,
    `shorts` holds every declared short flag (so also those with an optional value),
    `longs` every long name and `longVals` the long names that require a value.
   */
  datatype Flags = Flags(
    bools: set<char>,
    vals: set<char>,
    shorts: set<char>,
    longs: set<string>,
    longVals: set<string>
  ) {
    predicate Valid() {
      && bools !! vals
      && bools <= shorts
      && vals <= shorts
      && '-' !in shorts
      && longVals <= longs
    }
  }

  datatype Opt = Short(flag: char) | LongName(name: string)

  datatype Event =
    | Flag(flag: char)
    | Long(body: string)
    | Bound(opt: Opt, value: string)

  datatype Status = Complete | Unread(flag: char) | UnreadLong(name: string) | MissingValue(opt: Opt)

  datatype Reading = Reading(events: seq<Event>, operands: seq<string>, status: Status)

  /** How one option token reads: fully, wanting the next token as a value, or not at all. */
  datatype Head =
    | Plain(events: seq<Event>)
    | Wants(events: seq<Event>, opt: Opt)
    | Stop(events: seq<Event>, status: Status)

  predicate IsPositionalStart(t: string) {
    t == "" || t[0] != '-' || t == "-"
  }

  /** A token that ends the options: an operand or the `--` separator. */
  predicate EndsOptions(t: string) {
    t == "--" || IsPositionalStart(t)
  }

  function NameOf(body: string): (name: string)
    ensures '=' !in body ==> name == body
  {
    if body == "" || body[0] == '=' then "" else [body[0]] + NameOf(body[1..])
  }

  function ReadCluster(f: Flags, cs: string): (h: Head)
    ensures h.Stop? ==> h.status.Unread?
  {
    if cs == "" then Plain([])
    else if cs[0] in f.bools then
      match ReadCluster(f, cs[1..])
      case Plain(es) => Plain([Flag(cs[0])] + es)
      case Wants(es, o) => Wants([Flag(cs[0])] + es, o)
      case Stop(es, st) => Stop([Flag(cs[0])] + es, st)
    else if cs[0] in f.vals then
      if |cs| > 1 then Plain([Bound(Short(cs[0]), cs[1..])]) else Wants([], Short(cs[0]))
    else Stop([], Unread(cs[0]))
  }

  function ReadToken(f: Flags, t: string): (h: Head)
    requires !EndsOptions(t)
    ensures h.Stop? ==> h.status.Unread? || h.status.UnreadLong?
  {
    if t[1] == '-' then
      var name := NameOf(t[2..]);
      if name !in f.longs then Stop([], UnreadLong(name))
      else if name in f.longVals && '=' !in t[2..] then Wants([], LongName(name))
      else Plain([Long(t[2..])])
    else ReadCluster(f, t[1..])
  }

  function Prepend(es: seq<Event>, r: Reading): Reading {
    Reading(es + r.events, r.operands, r.status)
  }

  function Strict(f: Flags, argv: seq<string>): Reading {
    if argv == [] then Reading([], [], Complete)
    else if argv[0] == "--" then Reading([], argv[1..], Complete)
    else if IsPositionalStart(argv[0]) then Reading([], argv, Complete)
    else
      match ReadToken(f, argv[0])
      case Plain(es) => Prepend(es, Strict(f, argv[1..]))
      case Wants(es, o) =>
        if |argv| == 1 then Reading(es, [], MissingValue(o))
        else Prepend(es + [Bound(o, argv[1])], Strict(f, argv[2..]))
      case Stop(es, st) => Reading(es, [], st)
  }

  /** The strict reading of a command line whose first token reads as `h`. */
  function Continue(f: Flags, h: Head, rest: seq<string>): Reading {
    match h
    case Plain(es) => Prepend(es, Strict(f, rest))
    case Wants(es, o) =>
      if rest == [] then Reading(es, [], MissingValue(o))
      else Prepend(es + [Bound(o, rest[0])], Strict(f, rest[1..]))
    case Stop(es, st) => Reading(es, [], st)
  }

  lemma StrictCons(f: Flags, t: string, rest: seq<string>)
    requires !EndsOptions(t)
    ensures Strict(f, [t] + rest) == Continue(f, ReadToken(f, t), rest)
  {
    var argv := [t] + rest;
    assert argv[1..] == rest;
    if rest != [] { assert argv[2..] == rest[1..]; }
  }

  function Permissive(f: Flags, argv: seq<string>): Reading {
    if argv == [] then Reading([], [], Complete)
    else if argv[0] == "--" then Reading([], argv[1..], Complete)
    else if IsPositionalStart(argv[0]) then
      var r := Permissive(f, argv[1..]);
      Reading(r.events, [argv[0]] + r.operands, r.status)
    else
      match ReadToken(f, argv[0])
      case Plain(es) => Prepend(es, Permissive(f, argv[1..]))
      case Wants(es, o) =>
        if |argv| == 1 then Reading(es, [], MissingValue(o))
        else Prepend(es + [Bound(o, argv[1])], Permissive(f, argv[2..]))
      case Stop(es, st) => Reading(es, [], st)
  }
}
