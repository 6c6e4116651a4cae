/**
 * What the parsing pipeline of consoleapp/include/cmd/parser.inl promises,
 * stated and proved about the specification functions of module Parsing
 * (which the methods there are proved to compute).
 */
module ParserProperties {
  import opened Wrappers
  import opened Utils
  import opened Config
  import opened Results
  import opened Parsing

  // ---------------------------------------------------------------------
  // Long options

  /** The token `--name` (no value) or `--name=value`. */
  function LongToken(name: Bytes, value: Option<Bytes>): Bytes {
    LONG_PREFIX + name + (if value.Some? then [EQUALS] + value.value else [])
  }

  /** Two ways of cutting a long token at an `=` absent from the name part agree. */
  lemma {:induction false} SplitAtFirstEquals(a: Bytes, b: Bytes, c: Bytes, d: Bytes)
    requires EQUALS !in a && EQUALS !in c
    requires LONG_PREFIX + a + [EQUALS] + b == LONG_PREFIX + c + [EQUALS] + d
    ensures a == c && b == d
  {
    var s := LONG_PREFIX + a + [EQUALS] + b;
    var t := LONG_PREFIX + c + [EQUALS] + d;
    assert |a| == |c| by {
      assert forall j :: 0 <= j < |a| ==> s[2 + j] == a[j];
      assert forall j :: 0 <= j < |c| ==> t[2 + j] == c[j];
      assert s[2 + |a|] == EQUALS && t[2 + |c|] == EQUALS;
    }
    assert a == s[2..2 + |a|] == t[2..2 + |c|] == c;
    assert b == s[3 + |a|..] == t[3 + |c|..] == d;
  }

  /**
   * SplitLong inverts LongToken: the name is the text between `--` and the
   * first `=`, and the value, which may contain further `=`, is all after it.
   */
  lemma {:induction false} SplitLongRoundTrip(name: Bytes, value: Option<Bytes>)
    requires EQUALS !in name
    ensures StartsWith(LongToken(name, value), LONG_PREFIX)
    ensures SplitLong(LongToken(name, value)) == (name, value)
  {
    var t := LongToken(name, value);
    assert t[..2] == LONG_PREFIX;
    var r := SplitLong(t);
    match value
    case None =>
      assert t == LONG_PREFIX + name;
      assert EQUALS !in t by {
        forall j | 0 <= j < |t| ensures t[j] != EQUALS {
          if j >= 2 { assert t[j] == name[j - 2]; }
        }
      }
      assert t[2..] == name;
    case Some(v) =>
      assert t == LONG_PREFIX + name + [EQUALS] + v;
      assert t[2 + |name|] == EQUALS;
      SplitAtFirstEquals(r.0, r.1.value, name, v);
  }

  /** `--name=value` naming a flag fails Flag/FlagWithValue, whatever the value. */
  lemma LongFlagWithValue(h: Collaborators, command: Command, ps: seq<Parameter>, name: Bytes, value: Bytes)
    requires EQUALS !in name
    requires exists k :: 0 <= k < |command.flags| && command.flags[k].longname == name
    ensures LongSpec(h, command, ps, LongToken(name, Some(value)))
         == Step(ps, Err(PositionedError(Error(name, Some(value), TypeFlag, FlagWithValue), 0)))
  {
    SplitLongRoundTrip(name, Some(value));
    var k :| 0 <= k < |command.flags| && command.flags[k].longname == name;
    assert Longname(name).Matches(command.flags[k].longname, command.flags[k].shortname);
    assert FindFlag(command.flags, Longname(name)).Some?;
  }

  /**
   * `--name` is looked up among the flags first, by exact longname, and the
   * first match is registered, whatever arguments share the name.
   */
  lemma LongFlagsFirst(h: Collaborators, command: Command, ps: seq<Parameter>, name: Bytes, k: nat)
    requires EQUALS !in name
    requires k < |command.flags| && command.flags[k].longname == name
    requires forall j :: 0 <= j < k ==> command.flags[j].longname != name
    ensures LongSpec(h, command, ps, LongToken(name, None)) == Register(ps, h.addFlag(ps, command.flags[k], name))
  {
    SplitLongRoundTrip(name, None);
    assert Longname(name).Matches(command.flags[k].longname, command.flags[k].shortname);
  }

  /** `--name` naming an argument (and no flag) fails Argument/MissingValue. */
  lemma LongArgumentMissingValue(h: Collaborators, command: Command, ps: seq<Parameter>, name: Bytes)
    requires EQUALS !in name
    requires forall f :: f in command.flags ==> f.longname != name
    requires exists a :: a in command.arguments && a.longname == name
    ensures LongSpec(h, command, ps, LongToken(name, None))
         == Step(ps, Err(PositionedError(Error(name, None, TypeArgument, MissingValue), 0)))
  {
    SplitLongRoundTrip(name, None);
    var a :| a in command.arguments && a.longname == name;
    assert Longname(name).Matches(a.longname, a.shortname);
    assert FindArgument(command.arguments, Longname(name)).Some?;
  }

  /** `--name=value` naming an argument (and no flag) registers the value for the first such argument. */
  lemma LongArgumentValue(h: Collaborators, command: Command, ps: seq<Parameter>, name: Bytes, value: Bytes, k: nat)
    requires EQUALS !in name
    requires forall f :: f in command.flags ==> f.longname != name
    requires k < |command.arguments| && command.arguments[k].longname == name
    requires forall j :: 0 <= j < k ==> command.arguments[j].longname != name
    ensures LongSpec(h, command, ps, LongToken(name, Some(value)))
         == Register(ps, h.addArgument(ps, command.arguments[k], name, value))
  {
    SplitLongRoundTrip(name, Some(value));
    assert FindFlag(command.flags, Longname(name)).None? by {
      forall j | 0 <= j < |command.flags| ensures !Longname(name).Matches(command.flags[j].longname, command.flags[j].shortname) {
        assert command.flags[j] in command.flags;
      }
    }
    assert Longname(name).Matches(command.arguments[k].longname, command.arguments[k].shortname);
    LongArgumentFound(h, command, ps, LongToken(name, Some(value)), name, value, k);
  }

  /** The argument branch of LongSpec, for a token already split. */
  lemma LongArgumentFound(h: Collaborators, command: Command, ps: seq<Parameter>, arg: Bytes, name: Bytes, value: Bytes, k: nat)
    requires StartsWith(arg, LONG_PREFIX) && SplitLong(arg) == (name, Some(value))
    requires FindFlag(command.flags, Longname(name)).None?
    requires FindArgument(command.arguments, Longname(name)) == Some(k)
    ensures LongSpec(h, command, ps, arg) == Register(ps, h.addArgument(ps, command.arguments[k], name, value))
  {
  }

  /** A long name matching neither a flag nor an argument fails Argument/UnknownParameter. */
  lemma LongUnknown(h: Collaborators, command: Command, ps: seq<Parameter>, name: Bytes, value: Option<Bytes>)
    requires EQUALS !in name
    requires forall f :: f in command.flags ==> f.longname != name
    requires forall a :: a in command.arguments ==> a.longname != name
    ensures LongSpec(h, command, ps, LongToken(name, value))
         == Step(ps, Err(PositionedError(Error(name, value, TypeArgument, UnknownParameter), 0)))
  {
    SplitLongRoundTrip(name, value);
  }

  // ---------------------------------------------------------------------
  // Short bundles

  /** Every codepoint of name from byte offset i decodes and is some flag's shortname. */
  ghost predicate AllShortFlags(h: Collaborators, flags: seq<Flag>, name: Bytes, i: nat)
    requires i <= |name|
    decreases |name| - i
  {
    if i == |name| then true
    else
      match h.utf8.charLength(name[i..])
      case None => false
      case Some(len) =>
        match h.utf8.codepoint(name[i..i + len])
        case None => false
        case Some(cp) => (exists f :: f in flags && f.shortname == Some(cp)) && AllShortFlags(h, flags, name, i + len)
  }

  /** A bundle succeeds only if every one of its codepoints is a flag's shortname. */
  lemma {:induction false} BundleOkOnlyIfAllFlags(h: Collaborators, flags: seq<Flag>, name: Bytes, i: nat, ps: seq<Parameter>)
    requires i <= |name|
    requires Bundle(h, flags, name, i, ps).status.Ok?
    ensures AllShortFlags(h, flags, name, i)
    decreases |name| - i
  {
    if i < |name| {
      match h.utf8.charLength(name[i..])
      case None =>
      case Some(len) =>
        match h.utf8.codepoint(name[i..i + len])
        case None =>
        case Some(cp) =>
          match FindFlag(flags, Shortname(cp))
          case None =>
          case Some(k) =>
            assert flags[k] in flags;
            match h.addFlag(ps, flags[k], name)
            case Rejected(_) =>
            case Registered(p) => BundleOkOnlyIfAllFlags(h, flags, name, i + len, ps + [p]);
    }
  }

  /** When add_flag accepts every flag, a bundle of known shortnames succeeds. */
  lemma {:induction false} BundleOkIfAllFlags(h: Collaborators, flags: seq<Flag>, name: Bytes, i: nat, ps: seq<Parameter>)
    requires i <= |name|
    requires AllShortFlags(h, flags, name, i)
    requires forall q, f :: h.addFlag(q, f, name).Registered?
    ensures Bundle(h, flags, name, i, ps).status.Ok?
    decreases |name| - i
  {
    if i < |name| {
      var len, cp, k := AllShortFlagsNext(h, flags, name, i);
      var p := h.addFlag(ps, flags[k], name).parameter;
      BundleOkIfAllFlags(h, flags, name, i + len, ps + [p]);
      BundleOkStep(h, flags, name, i, ps, len, cp, k, p);
    }
  }

  /** A bundle whose first flag is accepted succeeds when its rest succeeds. */
  lemma BundleOkStep(h: Collaborators, flags: seq<Flag>, name: Bytes, i: nat, ps: seq<Parameter>, len: nat, cp: Char32, k: nat, p: Parameter)
    requires i < |name| && h.utf8.charLength(name[i..]) == Some(len)
    requires h.utf8.codepoint(name[i..i + len]) == Some(cp)
    requires FindFlag(flags, Shortname(cp)) == Some(k)
    requires h.addFlag(ps, flags[k], name) == Registered(p)
    requires i + len <= |name| && Bundle(h, flags, name, i + len, ps + [p]).status.Ok?
    ensures Bundle(h, flags, name, i, ps).status.Ok?
  {
    BundleAccepts(h, flags, name, i, ps, len, cp, k, p);
  }

  /** The first codepoint from offset i of a bundle of known shortnames: it decodes, some flag has it, and the rest is known too. */
  lemma AllShortFlagsNext(h: Collaborators, flags: seq<Flag>, name: Bytes, i: nat) returns (len: nat, cp: Char32, k: nat)
    requires i < |name| && AllShortFlags(h, flags, name, i)
    ensures h.utf8.charLength(name[i..]) == Some(len) && i + len <= |name|
    ensures h.utf8.codepoint(name[i..i + len]) == Some(cp)
    ensures FindFlag(flags, Shortname(cp)) == Some(k) && k < |flags|
    ensures AllShortFlags(h, flags, name, i + len)
  {
    len := h.utf8.charLength(name[i..]).value;
    cp := h.utf8.codepoint(name[i..i + len]).value;
    var f :| f in flags && f.shortname == Some(cp);
    assert Shortname(cp).Matches(f.longname, f.shortname);
    k := FindFlag(flags, Shortname(cp)).value;
  }

  /** A codepoint whose flag add_flag accepts moves the bundle on by its length. */
  lemma BundleAccepts(h: Collaborators, flags: seq<Flag>, name: Bytes, i: nat, ps: seq<Parameter>, len: nat, cp: Char32, k: nat, p: Parameter)
    requires i < |name| && h.utf8.charLength(name[i..]) == Some(len)
    requires h.utf8.codepoint(name[i..i + len]) == Some(cp)
    requires FindFlag(flags, Shortname(cp)) == Some(k)
    requires h.addFlag(ps, flags[k], name) == Registered(p)
    ensures i + len <= |name| && Bundle(h, flags, name, i, ps) == Bundle(h, flags, name, i + len, ps + [p])
  {
  }

  /**
   * A codepoint that does not decode fails the bundle Flag/BadString,
   * naming the whole bundle; the flags registered before it are kept.
   */
  lemma BundleDecodeFailure(h: Collaborators, flags: seq<Flag>, name: Bytes, i: nat, ps: seq<Parameter>)
    requires i < |name|
    requires h.utf8.charLength(name[i..]).None?
          || h.utf8.codepoint(name[i..i + h.utf8.charLength(name[i..]).value]).None?
    ensures Bundle(h, flags, name, i, ps) == Step(ps, Err(PositionedError(Error(name, None, TypeFlag, BadString), 0)))
  {
  }

  /**
   * `-ab` where a is the first flag's shortname and b is no flag's: the flag
   * for a is registered and kept, and the bundle fails Flag/UnknownParameter
   * naming the whole bundle.
   */
  lemma BundlePartialCommit(h: Collaborators, flags: seq<Flag>, name: Bytes, ps: seq<Parameter>,
                            len: nat, cp: Char32, k: nat, p: Parameter, len': nat, cp': Char32)
    requires 0 < len < |name|
    requires h.utf8.charLength(name) == Some(len) && h.utf8.codepoint(name[..len]) == Some(cp)
    requires FindFlag(flags, Shortname(cp)) == Some(k)
    requires h.addFlag(ps, flags[k], name) == Registered(p)
    requires h.utf8.charLength(name[len..]) == Some(len') && h.utf8.codepoint(name[len..len + len']) == Some(cp')
    requires forall f :: f in flags ==> f.shortname != Some(cp')
    ensures Bundle(h, flags, name, 0, ps) == Step(ps + [p], Err(PositionedError(Error(name, None, TypeFlag, UnknownParameter), 0)))
  {
    assert name[0..] == name;
    assert name[0..0 + len] == name[..len];
    BundleAccepts(h, flags, name, 0, ps, len, cp, k, p);
    assert FindFlag(flags, Shortname(cp')).None? by {
      forall j | 0 <= j < |flags| ensures !Shortname(cp').Matches(flags[j].longname, flags[j].shortname) {
        assert flags[j] in flags;
      }
    }
    BundleRejectsUnknown(h, flags, name, len, ps + [p], len', cp');
  }

  /** A codepoint that is no flag's shortname fails the bundle Flag/UnknownParameter. */
  lemma BundleRejectsUnknown(h: Collaborators, flags: seq<Flag>, name: Bytes, i: nat, ps: seq<Parameter>, len: nat, cp: Char32)
    requires i < |name| && h.utf8.charLength(name[i..]) == Some(len)
    requires h.utf8.codepoint(name[i..i + len]) == Some(cp)
    requires FindFlag(flags, Shortname(cp)).None?
    ensures Bundle(h, flags, name, i, ps) == Step(ps, Err(PositionedError(Error(name, None, TypeFlag, UnknownParameter), 0)))
  {
  }

  // ---------------------------------------------------------------------
  // Single short options

  /** args[i] is `-` followed by one whole codepoint cp. */
  ghost predicate SingleShort(h: Collaborators, args: seq<Bytes>, i: nat, name: Bytes, cp: Char32) {
    && i < |args|
    && args[i] == SHORT_PREFIX + name
    && h.utf8.charLength(name) == Some(|name|)
    && h.utf8.codepoint(name) == Some(cp)
    && name[0] != DASH
  }

  lemma SingleShortDispatch(h: Collaborators, args: seq<Bytes>, i: nat, name: Bytes, cp: Char32)
    requires SingleShort(h, args, i, name, cp)
    ensures StartsWith(args[i], SHORT_PREFIX) && args[i][1..] == name
    ensures !StartsWith(args[i], LONG_PREFIX) && !StartsWith(args[i], TRIPLE_DASH)
  {
    assert args[i][1] == name[0];
  }

  /** A flag shortname match takes precedence over an argument shortname match. */
  lemma ShortFlagFirst(h: Collaborators, command: Command, ps: seq<Parameter>, args: seq<Bytes>, i: nat, name: Bytes, cp: Char32, k: nat)
    requires SingleShort(h, args, i, name, cp)
    requires k < |command.flags| && command.flags[k].shortname == Some(cp)
    requires forall j :: 0 <= j < k ==> command.flags[j].shortname != Some(cp)
    ensures StartsWith(args[i], SHORT_PREFIX)
    ensures ShortSpec(h, command, ps, args, i) == (Register(ps, h.addFlag(ps, command.flags[k], name)), i)
  {
    SingleShortDispatch(h, args, i, name, cp);
    assert Shortname(cp).Matches(command.flags[k].longname, command.flags[k].shortname);
  }

  /**
   * A short argument takes the next token as its value; that token is
   * consumed, and the token loop resumes after it.
   */
  lemma ShortArgumentTakesNext(h: Collaborators, command: Command, ps: seq<Parameter>, args: seq<Bytes>, i: nat, name: Bytes, cp: Char32, k: nat, p: Parameter)
    requires SingleShort(h, args, i, name, cp)
    requires forall f :: f in command.flags ==> f.shortname != Some(cp)
    requires k < |command.arguments| && command.arguments[k].shortname == Some(cp)
    requires forall j :: 0 <= j < k ==> command.arguments[j].shortname != Some(cp)
    requires i + 1 < |args|
    requires h.addArgument(ps, command.arguments[k], name, args[i + 1]) == Registered(p)
    ensures StartsWith(args[i], SHORT_PREFIX)
    ensures ShortSpec(h, command, ps, args, i) == (Step(ps + [p], Ok(())), i + 1)
    ensures Walk(h, command, args, i, ps) == Walk(h, command, args, i + 2, ps + [p])
  {
    SingleShortDispatch(h, args, i, name, cp);
    assert Shortname(cp).Matches(command.arguments[k].longname, command.arguments[k].shortname);
  }

  /**
   * A short argument in the last token fails Argument/MissingValue. The
   * cursor has already moved past the end, so the error's position is the
   * length of the token stream, one past the offending token.
   */
  lemma ShortArgumentMissingValue(h: Collaborators, command: Command, ps: seq<Parameter>, args: seq<Bytes>, name: Bytes, cp: Char32)
    requires |args| > 0 && SingleShort(h, args, |args| - 1, name, cp)
    requires forall f :: f in command.flags ==> f.shortname != Some(cp)
    requires exists a :: a in command.arguments && a.shortname == Some(cp)
    ensures Walk(h, command, args, |args| - 1, ps)
         == Step(ps, Err(PositionedError(Error(name, None, TypeArgument, MissingValue), |args|)))
  {
    SingleShortDispatch(h, args, |args| - 1, name, cp);
    var a :| a in command.arguments && a.shortname == Some(cp);
    assert Shortname(cp).Matches(a.longname, a.shortname);
  }

  /** A single short name matching neither a flag nor an argument fails Argument/UnknownParameter at its token. */
  lemma ShortUnknown(h: Collaborators, command: Command, ps: seq<Parameter>, args: seq<Bytes>, i: nat, name: Bytes, cp: Char32)
    requires SingleShort(h, args, i, name, cp)
    requires forall f :: f in command.flags ==> f.shortname != Some(cp)
    requires forall a :: a in command.arguments ==> a.shortname != Some(cp)
    ensures Walk(h, command, args, i, ps)
         == Step(ps, Err(PositionedError(Error(name, None, TypeArgument, UnknownParameter), i)))
  {
    SingleShortDispatch(h, args, i, name, cp);
  }

  // ---------------------------------------------------------------------
  // The token loop

  /**
   * Runs of a loop whose body is any step function adv from index to index:
   * starting at i with parameters ps, the loop arrives at index k with
   * parameters ps' without failing on the way.
   */
  ghost predicate ReachesBy(adv: (nat, seq<Parameter>) -> (Step, nat), i: nat, ps: seq<Parameter>, k: nat, ps': seq<Parameter>)
    decreases k - i
  {
    if i == k then ps' == ps
    else
      && i < k
      && var r := adv(i, ps);
      && r.0.status.Ok?
      && i <= r.1 < k
      && ReachesBy(adv, r.1 + 1, r.0.params, k, ps')
  }

  /** The body of parse_command's token loop over args, as a step function (failing past the end). */
  function Stepper(h: Collaborators, command: Command, args: seq<Bytes>): (nat, seq<Parameter>) -> (Step, nat) {
    (j: nat, q: seq<Parameter>) => if j < |args| then Advance(h, command, args, j, q) else (Step(q, Aborted), j)
  }

  /** The token loop, started at i with parameters ps, arrives at index k with parameters ps' without failing. */
  ghost predicate Reaches(h: Collaborators, command: Command, args: seq<Bytes>, i: nat, ps: seq<Parameter>, k: nat, ps': seq<Parameter>) {
    ReachesBy(Stepper(h, command, args), i, ps, k, ps')
  }

  lemma {:induction false} WalkFromReached(h: Collaborators, command: Command, args: seq<Bytes>, i: nat, ps: seq<Parameter>, k: nat, ps': seq<Parameter>)
    requires i <= |args|
    requires Reaches(h, command, args, i, ps, k, ps')
    ensures k <= |args| && Walk(h, command, args, i, ps) == Walk(h, command, args, k, ps')
    decreases |args| - i
  {
    if i != k {
      var r := Advance(h, command, args, i, ps);
      WalkFromReached(h, command, args, r.1 + 1, r.0.params, k, ps');
    }
  }

  /** Two step functions that agree below k reach k alike. */
  lemma {:induction false} ReachesByAgree(adv: (nat, seq<Parameter>) -> (Step, nat), adv': (nat, seq<Parameter>) -> (Step, nat), i: nat, ps: seq<Parameter>, k: nat, ps': seq<Parameter>)
    requires forall j: nat, q :: j < k ==> adv(j, q) == adv'(j, q)
    requires ReachesBy(adv, i, ps, k, ps')
    ensures ReachesBy(adv', i, ps, k, ps')
    decreases k - i
  {
    if i != k {
      var r := adv(i, ps);
      ReachesByAgree(adv, adv', r.1 + 1, r.0.params, k, ps');
    }
  }

  /** One iteration reads only the current token and, for a short argument, the next one. */
  lemma AdvanceLocal(h: Collaborators, command: Command, args: seq<Bytes>, args': seq<Bytes>, j: nat, k: nat, ps: seq<Parameter>)
    requires j < k < |args| && k < |args'| && args[..k + 1] == args'[..k + 1]
    ensures Advance(h, command, args, j, ps) == Advance(h, command, args', j, ps)
  {
    assert args[j] == args[..k + 1][j] == args'[j];
    assert args[j + 1] == args[..k + 1][j + 1] == args'[j + 1];
  }

  /** Arriving at token k depends only on the tokens up to k. */
  lemma ReachesOnPrefix(h: Collaborators, command: Command, args: seq<Bytes>, args': seq<Bytes>, i: nat, ps: seq<Parameter>, k: nat, ps': seq<Parameter>)
    requires k < |args| && k < |args'| && args[..k + 1] == args'[..k + 1]
    requires Reaches(h, command, args, i, ps, k, ps')
    ensures Reaches(h, command, args', i, ps, k, ps')
  {
    forall j: nat, q | j < k ensures Stepper(h, command, args)(j, q) == Stepper(h, command, args')(j, q) {
      AdvanceLocal(h, command, args, args', j, k, q);
    }
    ReachesByAgree(Stepper(h, command, args), Stepper(h, command, args'), i, ps, k, ps');
  }

  /**
   * A token starting with `---` that the loop arrives at fails None/SyntaxError
   * at its own index, and nothing after it is looked at: the tokens that
   * follow do not change the outcome.
   */
  lemma TripleDashStops(h: Collaborators, command: Command, args: seq<Bytes>, args': seq<Bytes>, k: nat, ps: seq<Parameter>)
    requires k < |args| && k < |args'| && args[..k + 1] == args'[..k + 1]
    requires Reaches(h, command, args, 0, [], k, ps)
    requires StartsWith(args[k], TRIPLE_DASH)
    ensures Walk(h, command, args, 0, []) == Step(ps, Err(PositionedError(Error(args[k], None, TypeNone, SyntaxError), k)))
    ensures Walk(h, command, args', 0, []) == Walk(h, command, args, 0, [])
  {
    WalkFromReached(h, command, args, 0, [], k, ps);
    ReachesOnPrefix(h, command, args, args', 0, [], k, ps);
    WalkFromReached(h, command, args', 0, [], k, ps);
    assert args[k] == args[..k + 1][k] == args'[k];
  }

  /**
   * Whatever the token, a failing iteration at a token the loop arrives at
   * is the outcome of the whole loop: the loop stops there.
   */
  lemma ReachedFailure(h: Collaborators, command: Command, args: seq<Bytes>, k: nat, ps: seq<Parameter>)
    requires k < |args|
    requires Reaches(h, command, args, 0, [], k, ps)
    requires !Advance(h, command, args, k, ps).0.status.Ok?
    ensures Walk(h, command, args, 0, []) == Advance(h, command, args, k, ps).0
  {
    WalkFromReached(h, command, args, 0, [], k, ps);
  }

  /**
   * The error of parse_long_argument on a reached `--` token is reported at
   * its position plus the token's index in the command's token stream.
   */
  lemma LongErrorPosition(h: Collaborators, command: Command, args: seq<Bytes>, k: nat, ps: seq<Parameter>, e: PositionedError)
    requires k < |args|
    requires Reaches(h, command, args, 0, [], k, ps)
    requires StartsWith(args[k], LONG_PREFIX) && !StartsWith(args[k], TRIPLE_DASH)
    requires LongSpec(h, command, ps, args[k]).status == Err(e)
    ensures Walk(h, command, args, 0, []).status == Err(e.(position := e.position + k))
  {
    WalkFromReached(h, command, args, 0, [], k, ps);
  }

  /** The token prefixes nest: `---` starts with `--`, which starts with `-`. */
  lemma DashPrefixes(t: Bytes)
    ensures StartsWith(t, TRIPLE_DASH) ==> StartsWith(t, LONG_PREFIX)
    ensures StartsWith(t, LONG_PREFIX) ==> StartsWith(t, SHORT_PREFIX)
  {
    if |t| >= 3 {
      assert t[..2] == t[..3][..2];
    }
    if |t| >= 2 {
      assert t[..1] == t[..2][..1];
    }
  }

  /**
   * A short name takes the next token as its value exactly when it is one
   * whole codepoint that is no flag's shortname and some argument's.
   */
  ghost predicate TakesValue(h: Collaborators, command: Command, name: Bytes) {
    && h.utf8.charLength(name) == Some(|name|)
    && h.utf8.codepoint(name).Some?
    && FindFlag(command.flags, Shortname(h.utf8.codepoint(name).value)).None?
    && FindArgument(command.arguments, Shortname(h.utf8.codepoint(name).value)).Some?
  }

  /**
   * Where parse_short_argument leaves the shared cursor: one token further
   * exactly when a short argument took (or looked for) its value, else on
   * the token itself. Bundles never move it.
   */
  lemma ShortCursor(h: Collaborators, command: Command, ps: seq<Parameter>, args: seq<Bytes>, i: nat)
    requires i < |args| && StartsWith(args[i], SHORT_PREFIX)
    ensures ShortSpec(h, command, ps, args, i).1 == if TakesValue(h, command, args[i][1..]) then i + 1 else i
  {
  }

  /**
   * Where one iteration of the token loop leaves the cursor: on its own
   * token, except for a single short argument taking its value, which moves
   * it one token further. `---`, `--` and input tokens never move it.
   */
  lemma AdvanceCursor(h: Collaborators, command: Command, args: seq<Bytes>, i: nat, ps: seq<Parameter>)
    requires i < |args|
    ensures Advance(h, command, args, i, ps).1
         == if StartsWith(args[i], SHORT_PREFIX) && !StartsWith(args[i], LONG_PREFIX) && TakesValue(h, command, args[i][1..])
            then i + 1 else i
  {
    DashPrefixes(args[i]);
    if StartsWith(args[i], SHORT_PREFIX) && !StartsWith(args[i], LONG_PREFIX) {
      ShortCursor(h, command, ps, args, i);
    }
  }

  /**
   * After a successful iteration at a reached token the loop goes on from
   * the next token, or from the one after it when a short argument took the
   * next token as its value, with the parameters the iteration left.
   */
  lemma ReachedSuccess(h: Collaborators, command: Command, args: seq<Bytes>, k: nat, ps: seq<Parameter>)
    requires k < |args|
    requires Reaches(h, command, args, 0, [], k, ps)
    requires Advance(h, command, args, k, ps).0.status.Ok?
    ensures var next := k + 1 + if StartsWith(args[k], SHORT_PREFIX) && !StartsWith(args[k], LONG_PREFIX) && TakesValue(h, command, args[k][1..]) then 1 else 0;
      && next <= |args|
      && Walk(h, command, args, 0, []) == Walk(h, command, args, next, Advance(h, command, args, k, ps).0.params)
  {
    AdvanceCursor(h, command, args, k, ps);
    WalkFromReached(h, command, args, 0, [], k, ps);
  }

  /**
   * The error of parse_short_argument on a reached `-` token (a bundle, a
   * single flag or a single argument) is reported at its position plus the
   * cursor's distance from the start of the stream: the token's index, or
   * one more when a short argument has moved the cursor to its value.
   */
  lemma ShortErrorPosition(h: Collaborators, command: Command, args: seq<Bytes>, k: nat, ps: seq<Parameter>, e: PositionedError)
    requires k < |args|
    requires Reaches(h, command, args, 0, [], k, ps)
    requires StartsWith(args[k], SHORT_PREFIX) && !StartsWith(args[k], LONG_PREFIX)
    requires ShortSpec(h, command, ps, args, k).0.status == Err(e)
    ensures Walk(h, command, args, 0, []).status
         == Err(e.(position := e.position + k + if TakesValue(h, command, args[k][1..]) then 1 else 0))
  {
    DashPrefixes(args[k]);
    ShortCursor(h, command, ps, args, k);
    ReachedFailure(h, command, args, k, ps);
  }

  /**
   * A single short argument whose value add_argument rejects: the error is
   * reported one token after the option's own, on the value's token.
   */
  lemma ShortArgumentRejected(h: Collaborators, command: Command, args: seq<Bytes>, k: nat, ps: seq<Parameter>,
                              name: Bytes, cp: Char32, j: nat, e: PositionedError)
    requires Reaches(h, command, args, 0, [], k, ps)
    requires SingleShort(h, args, k, name, cp)
    requires forall f :: f in command.flags ==> f.shortname != Some(cp)
    requires j < |command.arguments| && command.arguments[j].shortname == Some(cp)
    requires forall i :: 0 <= i < j ==> command.arguments[i].shortname != Some(cp)
    requires k + 1 < |args|
    requires h.addArgument(ps, command.arguments[j], name, args[k + 1]) == Rejected(e)
    ensures Walk(h, command, args, 0, []) == Step(ps, Err(e.(position := e.position + k + 1)))
  {
    ShortArgumentRejectedStep(h, command, ps, args, k, name, cp, j, e);
    ReachedFailure(h, command, args, k, ps);
  }

  lemma ShortArgumentRejectedStep(h: Collaborators, command: Command, ps: seq<Parameter>, args: seq<Bytes>, k: nat,
                                  name: Bytes, cp: Char32, j: nat, e: PositionedError)
    requires SingleShort(h, args, k, name, cp)
    requires forall f :: f in command.flags ==> f.shortname != Some(cp)
    requires j < |command.arguments| && command.arguments[j].shortname == Some(cp)
    requires forall i :: 0 <= i < j ==> command.arguments[i].shortname != Some(cp)
    requires k + 1 < |args|
    requires h.addArgument(ps, command.arguments[j], name, args[k + 1]) == Rejected(e)
    ensures StartsWith(args[k], SHORT_PREFIX) && !StartsWith(args[k], LONG_PREFIX) && !StartsWith(args[k], TRIPLE_DASH)
    ensures ShortSpec(h, command, ps, args, k) == (Step(ps, Err(e)), k + 1)
  {
    SingleShortDispatch(h, args, k, name, cp);
    assert Shortname(cp).Matches(command.arguments[j].longname, command.arguments[j].shortname);
  }

  /**
   * A reached token that is no option is an input; when add_input rejects
   * it, the error is reported at its position plus the token's index.
   */
  lemma InputErrorPosition(h: Collaborators, command: Command, args: seq<Bytes>, k: nat, ps: seq<Parameter>, e: PositionedError)
    requires k < |args|
    requires Reaches(h, command, args, 0, [], k, ps)
    requires !StartsWith(args[k], SHORT_PREFIX)
    requires h.addInput(ps, command, args[k]) == Rejected(e)
    ensures Walk(h, command, args, 0, []) == Step(ps, Err(e.(position := e.position + k)))
  {
    DashPrefixes(args[k]);
    ReachedFailure(h, command, args, k, ps);
  }

  // ---------------------------------------------------------------------
  // Required arguments

  /**
   * After a successful token loop, parse_command succeeds exactly when every
   * required argument's longname is carried by an Argument parameter;
   * otherwise it fails Argument/RequiredArgument naming a missing one.
   */
  lemma RequiredArgumentsDecide(h: Collaborators, command: Command, args: seq<Bytes>, r: Outcome<ResultCommand>)
    requires CommandParses(h, command, args, r)
    requires Walk(h, command, args, 0, []).status.Ok?
    ensures var ps := Walk(h, command, args, 0, []).params;
      r.Ok? <==> forall a :: a in command.arguments && a.required ==>
                   exists p :: p in ps && p.ArgumentValue? && p.name == a.longname
    ensures r.Ok? ==> r.value == ResultCommand(command.longname, Walk(h, command, args, 0, []).params)
    ensures r.Err? ==> var ps := Walk(h, command, args, 0, []).params;
      && r.error.error.kind == TypeArgument && r.error.error.code == RequiredArgument
      && (exists a :: a in command.arguments && a.required && a.longname == r.error.error.argument)
      && (forall p :: p in ps && p.ArgumentValue? ==> p.name != r.error.error.argument)
  {
    var ps := Walk(h, command, args, 0, []).params;
    if r.Ok? {
      forall a | a in command.arguments && a.required
        ensures exists p :: p in ps && p.ArgumentValue? && p.name == a.longname
      {
        assert a.longname in RequiredNames(command.arguments);
      }
    } else {
      var x :| x in MissingRequired(command.arguments, ps);
      assert x in RequiredNames(command.arguments);
    }
  }

  /** With no tokens after the command, the parse succeeds with no parameters unless an argument is required. */
  lemma EmptyStream(h: Collaborators, command: Command, r: Outcome<ResultCommand>)
    requires CommandParses(h, command, [], r)
    ensures (forall a :: a in command.arguments ==> !a.required) <==> r == Ok(ResultCommand(command.longname, []))
  {
    var missing := MissingRequired(command.arguments, []);
    if missing != {} {
      var x :| x in missing;
      assert x in RequiredNames(command.arguments);
    } else {
      forall a | a in command.arguments ensures !a.required {
        assert a.required ==> a.longname in RequiredNames(command.arguments);
      }
    }
  }

  // ---------------------------------------------------------------------
  // Command resolution

  /** With no token after the program, or one starting with `-`, the global command governs from index 1. */
  lemma ResolveWithoutCommandToken(h: Collaborators, global: Option<Command>, commands: seq<Command>, args: seq<Bytes>)
    requires |args| == 1 || (|args| > 1 && StartsWith(args[1], SHORT_PREFIX))
    ensures global.Some? ==> Resolve(h, global, commands, args) == Ok((global.value, 1))
    ensures global.None? ==>
      Resolve(h, global, commands, args) == Err(PositionedError(Error([], None, TypeCommand, NoGlobalCommand), 1))
  {
  }

  /** A command token is looked up by its first codepoint only; a match consumes the token. */
  lemma ResolveMatched(h: Collaborators, global: Option<Command>, commands: seq<Command>, args: seq<Bytes>, cp: Char32, k: nat)
    requires |args| > 1 && !StartsWith(args[1], SHORT_PREFIX)
    requires h.utf8.charLength(args[1]).Some? && h.utf8.codepoint(args[1]) == Some(cp)
    requires k < |commands| && commands[k].shortname == Some(cp)
    requires forall j :: 0 <= j < k ==> commands[j].shortname != Some(cp)
    ensures Resolve(h, global, commands, args) == Ok((commands[k], 2))
  {
    assert Shortname(cp).Matches(commands[k].longname, commands[k].shortname);
  }

  /**
   * A token whose first codepoint is no command's shortname falls back to the
   * global command and is not consumed, even when it equals some command's
   * longname: the longname lookup is never reached.
   */
  lemma ResolveUnmatched(h: Collaborators, global: Option<Command>, commands: seq<Command>, args: seq<Bytes>, cp: Char32)
    requires |args| > 1 && !StartsWith(args[1], SHORT_PREFIX)
    requires h.utf8.charLength(args[1]).Some? && h.utf8.codepoint(args[1]) == Some(cp)
    requires forall c :: c in commands ==> c.shortname != Some(cp)
    ensures Resolve(h, global, commands, args) == Fallback(global, 1)
  {
  }

  /**
   * Whenever a command is selected by its token, it is the first whose
   * shortname is the token's first codepoint.
   */
  lemma ResolveSelectsByShortname(h: Collaborators, global: Option<Command>, commands: seq<Command>, args: seq<Bytes>, c: Command)
    requires |args| >= 1
    requires Resolve(h, global, commands, args) == Ok((c, 2))
    ensures |args| > 1 && h.utf8.codepoint(args[1]).Some?
    ensures exists k :: 0 <= k < |commands| && commands[k] == c && c.shortname == h.utf8.codepoint(args[1])
                     && forall j :: 0 <= j < k ==> commands[j].shortname != h.utf8.codepoint(args[1])
  {
    var cp := h.utf8.codepoint(args[1]).value;
    var k := FindCommand(commands, Shortname(cp)).value;
    assert commands[k] == c;
    forall j | 0 <= j < k ensures commands[j].shortname != Some(cp) {
      assert !Shortname(cp).Matches(commands[j].longname, commands[j].shortname);
    }
  }

  /**
   * A successful parse names args[0] as the program and the resolved
   * command's longname as the command, and leaves the top-level parameter
   * list empty.
   */
  lemma ParseSuccess(h: Collaborators, global: Option<Command>, commands: seq<Command>, args: seq<Bytes>, res: ParseResult)
    requires |args| >= 1
    requires Parses(h, global, commands, args, Ok(res))
    ensures Resolve(h, global, commands, args).Ok?
    ensures res.program == args[0] && res.parameters == []
    ensures res.command.name == Resolve(h, global, commands, args).value.0.longname
  {
  }

  /**
   * Without a global command, falling back to it fails the parse
   * Command/NoGlobalCommand at index 1: with no command token, and with a
   * token whose codepoint is no command's shortname.
   */
  lemma ParseNoGlobalCommand(h: Collaborators, commands: seq<Command>, args: seq<Bytes>, r: Outcome<ParseResult>)
    requires || |args| == 1
             || (|args| > 1 && StartsWith(args[1], SHORT_PREFIX))
             || (&& |args| > 1 && !StartsWith(args[1], SHORT_PREFIX)
                 && h.utf8.charLength(args[1]).Some? && h.utf8.codepoint(args[1]).Some?
                 && forall c :: c in commands ==> c.shortname != Some(h.utf8.codepoint(args[1]).value))
    requires Parses(h, None, commands, args, r)
    ensures r == Err(PositionedError(Error([], None, TypeCommand, NoGlobalCommand), 1))
  {
    if |args| > 1 && !StartsWith(args[1], SHORT_PREFIX) {
      var cp := h.utf8.codepoint(args[1]).value;
      assert FindCommand(commands, Shortname(cp)).None? by {
        forall j | 0 <= j < |commands| ensures !Shortname(cp).Matches(commands[j].longname, commands[j].shortname) {
          assert commands[j] in commands;
        }
      }
    }
  }

  /**
   * An error of parse_command is reported at its position within the
   * command's stream moved by the index where that stream starts.
   */
  lemma ParseCommandErrorOffset(h: Collaborators, global: Option<Command>, commands: seq<Command>, args: seq<Bytes>,
                                command: Command, start: nat, e: PositionedError, r: Outcome<ParseResult>)
    requires |args| >= 1
    requires Resolve(h, global, commands, args) == Ok((command, start))
    requires Walk(h, command, args[start..], 0, []).status == Err(e)
    requires Parses(h, global, commands, args, r)
    ensures r == Err(e.(position := e.position + start))
  {
  }

  /**
   * Under the decoder's contract a decoded length never exceeds the token,
   * so the resolver always searches by shortname and its longname search is
   * never reached: for a command token that decodes, the resolution is the
   * shortname selection, or Aborted when the codepoint does not decode.
   */
  lemma ShortnameSearchAlways(h: Collaborators, global: Option<Command>, commands: seq<Command>, args: seq<Bytes>)
    requires |args| >= 2 && !StartsWith(args[1], SHORT_PREFIX)
    requires h.utf8.charLength(args[1]).Some?
    ensures Resolve(h, global, commands, args)
         == match h.utf8.codepoint(args[1])
            case None => Aborted
            case Some(cp) => Select(global, commands, Shortname(cp))
  {
  }

  /**
   * End to end: a `---` token that the command's loop arrives at fails the
   * parse with None/SyntaxError at its index in the full argument list, the
   * index within the command's stream moved by where that stream starts.
   */
  lemma ParseTripleDash(h: Collaborators, global: Option<Command>, commands: seq<Command>, args: seq<Bytes>,
                        command: Command, start: nat, k: nat, ps: seq<Parameter>, r: Outcome<ParseResult>)
    requires |args| >= 1
    requires Resolve(h, global, commands, args) == Ok((command, start))
    requires start + k < |args|
    requires Reaches(h, command, args[start..], 0, [], k, ps)
    requires StartsWith(args[start + k], TRIPLE_DASH)
    requires Parses(h, global, commands, args, r)
    ensures r == Err(PositionedError(Error(args[start + k], None, TypeNone, SyntaxError), start + k))
  {
    var tail := args[start..];
    assert tail[k] == args[start + k];
    WalkFromReached(h, command, tail, 0, [], k, ps);
  }
}
