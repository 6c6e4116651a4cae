/**
 * The parsing pipeline of consoleapp/include/cmd/parser.inl and the Parser
 * class of consoleapp/include/cmd_parser.h.
 *
 * Each step of the source is given twice: as a specification function over
 * values (LongSpec, Bundle, ShortSpec, Advance, Walk, Resolve), and as the
 * method that does the work step by step the way the source does, proved
 * equal to its specification. The properties the source promises are lemmas
 * about the specification functions, in module ParserProperties.
 */
module Parsing {
  import opened Wrappers
  import opened Utils
  import opened Config
  import opened Results

  /** What add_flag, add_argument and add_input report: one parameter to append, or an error. */
  datatype Registration = Registered(parameter: Parameter) | Rejected(error: PositionedError)

  /**
   * The parts of the system the parse calls but this model does not define:
   * the UTF-8 decoder, and the Parser members add_flag, add_argument and
   * add_input, which do the occurrence counting, bound checks and validation.
   * Each receives the parameters parsed so far.
   */
  datatype Collaborators = Collaborators(
    utf8: Utf8,
    addFlag: (seq<Parameter>, Flag, Bytes) -> Registration,
    addArgument: (seq<Parameter>, Argument, Bytes, Bytes) -> Registration,
    addInput: (seq<Parameter>, Command, Bytes) -> Registration)

  /**
   * The parameters of result_command after a step, and the step's outcome.
   * On failure the parameters are those added before the failure.
   */
  datatype Step = Step(params: seq<Parameter>, status: Outcome<()>)
  {
    function Offset(d: nat): Step {
      Step(params, status.Offset(d))
    }
  }

  /** Applies a registration to result_command's parameters. */
  function Register(ps: seq<Parameter>, reg: Registration): (r: Step)
    ensures r.status.Ok? <==> reg.Registered?
    ensures reg.Registered? ==> r.params == ps + [reg.parameter]
    ensures reg.Rejected? ==> r.params == ps && r.status == Err(reg.error)
  {
    match reg
    case Registered(p) => Step(ps + [p], Ok(()))
    case Rejected(e) => Step(ps, Err(e))
  }

  const SHORT_PREFIX: Bytes := [DASH]
  const LONG_PREFIX: Bytes := [DASH, DASH]
  const TRIPLE_DASH: Bytes := [DASH, DASH, DASH]

  // ---------------------------------------------------------------------
  // parse_long_argument

  /**
   * The name and optional value of a `--name` or `--name=value` token:
   * without `=`, everything after the dashes is the name; with `=`, the first
   * `=` separates name from value, and the value may hold more of them.
   */
  function SplitLong(arg: Bytes): (r: (Bytes, Option<Bytes>))
    requires StartsWith(arg, LONG_PREFIX)
    ensures EQUALS !in arg ==> r.0 == arg[2..] && r.1 == None
    ensures EQUALS in arg ==> r.1.Some? && EQUALS !in r.0 && arg == LONG_PREFIX + r.0 + [EQUALS] + r.1.value
  {
    assert arg[0] == arg[..2][0] && arg[1] == arg[..2][1];
    match IndexOf(arg, EQUALS)
    case None => (arg[2..], None)
    case Some(p) =>
      assert arg == arg[..2] + arg[2..p] + [arg[p]] + arg[p + 1..];
      (arg[2..p], Some(arg[p + 1..]))
  }

  /**
   * parse_long_argument: flags are searched before arguments, by exact
   * longname. It never aborts, and it adds exactly one parameter when it
   * succeeds and none when it fails.
   */
  function LongSpec(h: Collaborators, command: Command, ps: seq<Parameter>, arg: Bytes): (r: Step)
    requires StartsWith(arg, LONG_PREFIX)
    ensures !r.status.Aborted?
    ensures r.status.Ok? ==> |r.params| == |ps| + 1 && r.params[..|ps|] == ps
    ensures !r.status.Ok? ==> r.params == ps
  {
    var (name, value) := SplitLong(arg);
    match FindFlag(command.flags, Longname(name))
    case Some(k) =>
      if value.Some? then Step(ps, Err(PositionedError(Error(name, value, TypeFlag, FlagWithValue), 0)))
      else Register(ps, h.addFlag(ps, command.flags[k], name))
    case None =>
      match FindArgument(command.arguments, Longname(name))
      case Some(k) =>
        if value.None? then Step(ps, Err(PositionedError(Error(name, value, TypeArgument, MissingValue), 0)))
        else Register(ps, h.addArgument(ps, command.arguments[k], name, value.value))
      case None => Step(ps, Err(PositionedError(Error(name, value, TypeArgument, UnknownParameter), 0)))
  }

  // ---------------------------------------------------------------------
  // parse_short_argument

  /**
   * The walk over a bundle `-abc` from byte offset i: each codepoint must be
   * some flag's shortname. The whole bundle is the name passed to add_flag.
   * Commit is partial: what the bundle has registered stays registered, also
   * when a later codepoint fails. A bundle never aborts.
   */
  function Bundle(h: Collaborators, flags: seq<Flag>, name: Bytes, i: nat, ps: seq<Parameter>): (r: Step)
    requires i <= |name|
    ensures ps <= r.params
    ensures !r.status.Aborted?
    decreases |name| - i
  {
    if i == |name| then Step(ps, Ok(()))
    else match h.utf8.charLength(name[i..])
      case None => Step(ps, Err(PositionedError(Error(name, None, TypeFlag, BadString), 0)))
      case Some(len) =>
        match h.utf8.codepoint(name[i..i + len])
        case None => Step(ps, Err(PositionedError(Error(name, None, TypeFlag, BadString), 0)))
        case Some(cp) =>
          match FindFlag(flags, Shortname(cp))
          case None => Step(ps, Err(PositionedError(Error(name, None, TypeFlag, UnknownParameter), 0)))
          case Some(k) =>
            var s := Register(ps, h.addFlag(ps, flags[k], name));
            if s.status.Ok? then
              var r := Bundle(h, flags, name, i + len, s.params);
              PrefixTrans(ps, s.params, r.params);
              r
            else s
  }

  /**
   * parse_short_argument on args[i], and where the shared token cursor stands
   * afterwards: on i, or on i + 1 once a short argument has taken the next
   * token (or found none) as its value.
   */
  function ShortSpec(h: Collaborators, command: Command, ps: seq<Parameter>, args: seq<Bytes>, i: nat): (r: (Step, nat))
    requires i < |args| && StartsWith(args[i], SHORT_PREFIX)
    ensures r.1 == i || r.1 == i + 1
    ensures r.0.status.Ok? ==> r.1 < |args|
    ensures ps <= r.0.params
  {
    var name := args[i][1..];
    match h.utf8.charLength(name)
    case None => (Step(ps, Aborted), i)
    case Some(len) =>
      if |name| > len then (Bundle(h, command.flags, name, 0, ps), i)
      else match h.utf8.codepoint(name)
        case None => (Step(ps, Err(PositionedError(Error(name, None, TypeFlag, BadString), 0))), i)
        case Some(cp) =>
          match FindFlag(command.flags, Shortname(cp))
          case Some(k) => (Register(ps, h.addFlag(ps, command.flags[k], name)), i)
          case None =>
            match FindArgument(command.arguments, Shortname(cp))
            case Some(k) =>
              if i + 1 == |args| then
                (Step(ps, Err(PositionedError(Error(name, None, TypeArgument, MissingValue), 0))), i + 1)
              else (Register(ps, h.addArgument(ps, command.arguments[k], name, args[i + 1])), i + 1)
            case None => (Step(ps, Err(PositionedError(Error(name, None, TypeArgument, UnknownParameter), 0))), i)
  }

  // ---------------------------------------------------------------------
  // parse_command

  /**
   * One iteration of parse_command's token loop on args[i]: the step and
   * where the cursor stands. A failing sub-parser reports position 0 and the
   * loop adds the cursor's distance from the start of the stream.
   */
  function Advance(h: Collaborators, command: Command, args: seq<Bytes>, i: nat, ps: seq<Parameter>): (r: (Step, nat))
    requires i < |args|
    ensures r.1 == i || r.1 == i + 1
    ensures r.0.status.Ok? ==> r.1 < |args|
    ensures ps <= r.0.params
  {
    var token := args[i];
    if StartsWith(token, TRIPLE_DASH) then
      (Step(ps, Err(PositionedError(Error(token, None, TypeNone, SyntaxError), i))), i)
    else if StartsWith(token, LONG_PREFIX) then
      (LongSpec(h, command, ps, token).Offset(i), i)
    else if StartsWith(token, SHORT_PREFIX) then
      var (s, cursor) := ShortSpec(h, command, ps, args, i);
      (s.Offset(cursor), cursor)
    else
      (Register(ps, h.addInput(ps, command, token)).Offset(i), i)
  }

  /**
   * The token loop of parse_command from index i, stopping at the first
   * failure. The parameters it starts with are kept, in order, whatever the
   * outcome.
   */
  function Walk(h: Collaborators, command: Command, args: seq<Bytes>, i: nat, ps: seq<Parameter>): (r: Step)
    requires i <= |args|
    ensures ps <= r.params
    decreases |args| - i
  {
    if i == |args| then Step(ps, Ok(()))
    else
      var (s, cursor) := Advance(h, command, args, i, ps);
      if s.status.Ok? then
        var r := Walk(h, command, args, cursor + 1, s.params);
        PrefixTrans(ps, s.params, r.params);
        r
      else s
  }

  /** The longnames of the arguments declared `required`. */
  function RequiredNames(arguments: seq<Argument>): (r: set<Bytes>)
    ensures forall x :: x in r <==> exists a :: a in arguments && a.required && a.longname == x
  {
    if arguments == [] then {}
    else
      var last := arguments[|arguments| - 1];
      assert forall a :: a in arguments <==> a in arguments[..|arguments| - 1] || a == last;
      RequiredNames(arguments[..|arguments| - 1]) + (if last.required then {last.longname} else {})
  }

  /** The names carried by the Argument parameters among ps. */
  function ArgumentNames(ps: seq<Parameter>): (r: set<Bytes>)
    ensures forall x :: x in r <==> exists p :: p in ps && p.ArgumentValue? && p.name == x
  {
    if ps == [] then {}
    else
      var last := ps[|ps| - 1];
      assert forall p :: p in ps <==> p in ps[..|ps| - 1] || p == last;
      ArgumentNames(ps[..|ps| - 1]) + (if last.ArgumentValue? then {last.name} else {})
  }

  /** The required longnames that no Argument parameter carries. */
  function MissingRequired(arguments: seq<Argument>, ps: seq<Parameter>): (r: set<Bytes>)
    ensures forall x :: x in r <==>
      && (exists a :: a in arguments && a.required && a.longname == x)
      && (forall p :: p in ps && p.ArgumentValue? ==> p.name != x)
  {
    RequiredNames(arguments) - ArgumentNames(ps)
  }

  /**
   * What parse_command may return for args: the walk's failure, or, after a
   * successful walk, success exactly when no required argument is missing,
   * else RequiredArgument naming one of the missing ones (which one is up to
   * the hash set's iteration order).
   */
  ghost predicate CommandParses(h: Collaborators, command: Command, args: seq<Bytes>, r: Outcome<ResultCommand>): (b: bool)
    ensures b && r.Ok? ==> Walk(h, command, args, 0, []).status.Ok? && r.value.name == command.longname
    ensures b && r.Ok? ==> r.value.parameters == Walk(h, command, args, 0, []).params
    ensures b && r.Err? && Walk(h, command, args, 0, []).status.Ok? ==>
      r.error.position == 0 && r.error.error.code == RequiredArgument
    ensures b && r.Aborted? ==> Walk(h, command, args, 0, []).status.Aborted?
  {
    var s := Walk(h, command, args, 0, []);
    match s.status
    case Err(e) => r == Err(e)
    case Aborted => r == Aborted
    case Ok(_) =>
      var missing := MissingRequired(command.arguments, s.params);
      if missing == {} then r == Ok(ResultCommand(command.longname, s.params))
      else
        && r.Err?
        && r.error.position == 0
        && r.error.error.argument in missing
        && r.error.error == Error(r.error.error.argument, None, TypeArgument, RequiredArgument)
  }

  // ---------------------------------------------------------------------
  // Parser::parse

  /** The global command, with the index where its token stream starts; NoGlobalCommand if there is none. */
  function Fallback(global: Option<Command>, start: nat): (r: Outcome<(Command, nat)>)
    ensures r.Ok? <==> global.Some?
    ensures r.Ok? ==> r.value == (global.value, start)
    ensures r.Err? ==> r.error.position == start && r.error.error.kind == TypeCommand && r.error.error.code == NoGlobalCommand
  {
    match global
    case None => Err(PositionedError(Error([], None, TypeCommand, NoGlobalCommand), start))
    case Some(c) => Ok((c, start))
  }

  /** The first command matching key consumes the candidate token; without one the global command is used. */
  function Select(global: Option<Command>, commands: seq<Command>, key: Key): (r: Outcome<(Command, nat)>)
    ensures r.Ok? <==> global.Some? || exists c :: c in commands && key.Matches(c.longname, c.shortname)
    ensures r.Ok? && r.value.1 == 2 ==> r.value.0 in commands && key.Matches(r.value.0.longname, r.value.0.shortname)
    ensures r.Ok? && (exists c :: c in commands && key.Matches(c.longname, c.shortname)) ==> r.value.1 == 2
    ensures r.Ok? && r.value.1 != 2 ==> r.value == (global.value, 1)
  {
    match FindCommand(commands, key)
    case Some(k) => Ok((commands[k], 2))
    case None => Fallback(global, 1)
  }

  /**
   * Command resolution of Parser::parse: the command that governs the
   * tokens, and the index of args where its token stream starts.
   */
  function Resolve(h: Collaborators, global: Option<Command>, commands: seq<Command>, args: seq<Bytes>): (r: Outcome<(Command, nat)>)
    requires |args| >= 1
    ensures r.Ok? ==> (r.value.1 == 1 || r.value.1 == 2) && r.value.1 <= |args|
  {
    if |args| == 1 || StartsWith(args[1], SHORT_PREFIX) then Fallback(global, 1)
    else
      var token := args[1];
      match h.utf8.charLength(token)
      case None => Err(PositionedError(Error([], None, TypeNone, BadString), 1))
      case Some(len) =>
        if len <= |token| then
          match h.utf8.codepoint(token)
          case None => Aborted
          case Some(cp) => Select(global, commands, Shortname(cp))
        else Select(global, commands, Longname(token))
  }

  /**
   * What Parser::parse may return: a resolution failure, or what
   * parse_command returns for the resolved command's stream, with error
   * positions moved by the stream's start and args[0] as the program.
   */
  ghost predicate Parses(h: Collaborators, global: Option<Command>, commands: seq<Command>, args: seq<Bytes>, r: Outcome<ParseResult>): (b: bool)
    requires |args| >= 1
    ensures b && !Resolve(h, global, commands, args).Ok? ==> !r.Ok?
    ensures b && r.Err? && Resolve(h, global, commands, args).Ok? ==> r.error.position >= Resolve(h, global, commands, args).value.1
  {
    match Resolve(h, global, commands, args)
    case Err(e) => r == Err(e)
    case Aborted => r == Aborted
    case Ok((command, start)) =>
      match r
      case Ok(res) =>
        res.program == args[0] && res.parameters == [] && CommandParses(h, command, args[start..], Ok(res.command))
      case Err(e) =>
        e.position >= start && CommandParses(h, command, args[start..], Err(e.(position := e.position - start)))
      case Aborted => CommandParses(h, command, args[start..], Aborted)
  }

  // ---------------------------------------------------------------------
  // The methods

  /** parse_long_argument, adding to the parameters of result_command. */
  method ParseLongArgument(h: Collaborators, command: Command, params: seq<Parameter>, arg: Bytes)
    returns (params': seq<Parameter>, status: Outcome<()>)
    requires StartsWith(arg, LONG_PREFIX)
    ensures Step(params', status) == LongSpec(h, command, params, arg)
  {
    params' := params;
    var name: Bytes;
    var value: Option<Bytes>;
    var equalPos := IndexOf(arg, EQUALS);
    if equalPos.None? {
      name, value := arg[2..], None;
    } else {
      assert arg[0] == arg[..2][0] && arg[1] == arg[..2][1];
      value := Some(arg[equalPos.value + 1..]);
      name := arg[2..equalPos.value];
    }
    var foundFlag := FindFlag(command.flags, Longname(name));
    if foundFlag.Some? {
      if value.Some? {
        status := Err(PositionedError(Error(name, value, TypeFlag, FlagWithValue), 0));
        return;
      }
      var res := h.addFlag(params', command.flags[foundFlag.value], name);
      if res.Rejected? {
        status := Err(res.error);
        return;
      }
      params' := params' + [res.parameter];
    } else {
      var foundArgument := FindArgument(command.arguments, Longname(name));
      if foundArgument.Some? {
        if value.None? {
          status := Err(PositionedError(Error(name, value, TypeArgument, MissingValue), 0));
          return;
        }
        var res := h.addArgument(params', command.arguments[foundArgument.value], name, value.value);
        if res.Rejected? {
          status := Err(res.error);
          return;
        }
        params' := params' + [res.parameter];
      } else {
        status := Err(PositionedError(Error(name, value, TypeArgument, UnknownParameter), 0));
        return;
      }
    }
    status := Ok(());
  }

  /**
   * The bundle branch of parse_short_argument: one flag per codepoint of
   * name, advancing a byte offset by each decoded length.
   */
  method ParseBundle(h: Collaborators, flags: seq<Flag>, name: Bytes, params: seq<Parameter>)
    returns (params': seq<Parameter>, status: Outcome<()>)
    ensures Step(params', status) == Bundle(h, flags, name, 0, params)
  {
    params' := params;
    var iName := 0;
    while iName < |name|
      invariant 0 <= iName <= |name|
      invariant Bundle(h, flags, name, iName, params') == Bundle(h, flags, name, 0, params)
      decreases |name| - iName
    {
      var charLength := h.utf8.charLength(name[iName..]);
      if charLength.None? {
        status := Err(PositionedError(Error(name, None, TypeFlag, BadString), 0));
        return;
      }
      var len := charLength.value;
      var codepoint := h.utf8.codepoint(name[iName..iName + len]);
      if codepoint.None? {
        status := Err(PositionedError(Error(name, None, TypeFlag, BadString), 0));
        return;
      }
      var foundFlag := FindFlag(flags, Shortname(codepoint.value));
      if foundFlag.None? {
        status := Err(PositionedError(Error(name, None, TypeFlag, UnknownParameter), 0));
        return;
      }
      var res := h.addFlag(params', flags[foundFlag.value], name);
      if res.Rejected? {
        status := Err(res.error);
        return;
      }
      params' := params' + [res.parameter];
      iName := iName + len;
    }
    status := Ok(());
  }

  /**
   * parse_short_argument, adding to the parameters of result_command and
   * moving the shared cursor past a value it consumes.
   */
  method ParseShortArgument(h: Collaborators, command: Command, params: seq<Parameter>, args: seq<Bytes>, i: nat)
    returns (params': seq<Parameter>, cursor: nat, status: Outcome<()>)
    requires i < |args| && StartsWith(args[i], SHORT_PREFIX)
    ensures (Step(params', status), cursor) == ShortSpec(h, command, params, args, i)
  {
    params', cursor := params, i;
    var name := args[i][1..];
    var nameLength := h.utf8.charLength(name);
    if nameLength.None? {
      // `.value()` on the failed decode throws
      status := Aborted;
      return;
    }
    if |name| > nameLength.value {
      params', status := ParseBundle(h, command.flags, name, params);
    } else {
      var codepoint := h.utf8.codepoint(name);
      if codepoint.None? {
        status := Err(PositionedError(Error(name, None, TypeFlag, BadString), 0));
        return;
      }
      var foundFlag := FindFlag(command.flags, Shortname(codepoint.value));
      if foundFlag.Some? {
        var res := h.addFlag(params', command.flags[foundFlag.value], name);
        if res.Rejected? {
          status := Err(res.error);
          return;
        }
        params' := params' + [res.parameter];
      } else {
        var foundArgument := FindArgument(command.arguments, Shortname(codepoint.value));
        if foundArgument.Some? {
          cursor := cursor + 1;
          if cursor == |args| {
            status := Err(PositionedError(Error(name, None, TypeArgument, MissingValue), 0));
            return;
          }
          var res := h.addArgument(params', command.arguments[foundArgument.value], name, args[cursor]);
          if res.Rejected? {
            status := Err(res.error);
            return;
          }
          params' := params' + [res.parameter];
        } else {
          status := Err(PositionedError(Error(name, None, TypeArgument, UnknownParameter), 0));
          return;
        }
      }
      status := Ok(());
    }
  }

  /**
   * The body of parse_command's token loop on args[i]: rejects `---`,
   * dispatches the token, and moves a sub-parser's error by the cursor's
   * distance from the start of the stream.
   */
  method ParseToken(h: Collaborators, command: Command, params: seq<Parameter>, args: seq<Bytes>, i: nat)
    returns (params': seq<Parameter>, cursor: nat, status: Outcome<()>)
    requires i < |args|
    ensures (Step(params', status), cursor) == Advance(h, command, args, i, params)
  {
    var token := args[i];
    cursor := i;
    if StartsWith(token, TRIPLE_DASH) {
      params', status := params, Err(PositionedError(Error(token, None, TypeNone, SyntaxError), i));
      return;
    }
    if StartsWith(token, LONG_PREFIX) {
      params', status := ParseLongArgument(h, command, params, token);
    } else if StartsWith(token, SHORT_PREFIX) {
      params', cursor, status := ParseShortArgument(h, command, params, args, i);
    } else {
      var res := h.addInput(params, command, token);
      if res.Rejected? {
        params', status := params, Err(res.error);
      } else {
        params', status := params + [res.parameter], Ok(());
      }
    }
    status := status.Offset(cursor);
  }

  /** parse_command: the token loop, then the check that every required argument occurred. */
  method ParseCommand(h: Collaborators, args: seq<Bytes>, command: Command) returns (r: Outcome<ResultCommand>)
    ensures CommandParses(h, command, args, r)
  {
    var params: seq<Parameter> := [];
    var i := 0;
    while i < |args|
      invariant 0 <= i <= |args|
      invariant Walk(h, command, args, i, params) == Walk(h, command, args, 0, [])
      decreases |args| - i
    {
      var status: Outcome<()>;
      params, i, status := ParseToken(h, command, params, args, i);
      match status {
        case Err(e) =>
          r := Err(e);
          return;
        case Aborted =>
          r := Aborted;
          return;
        case Ok(_) =>
      }
      i := i + 1;
    }
    assert Walk(h, command, args, 0, []) == Step(params, Ok(()));
    r := CheckRequired(command, params);
  }

  /**
   * The post-validation of parse_command, done as in the source with a set
   * that is filled with the required longnames and drained by the Argument
   * parameters.
   */
  method CheckRequired(command: Command, params: seq<Parameter>) returns (r: Outcome<ResultCommand>)
    ensures MissingRequired(command.arguments, params) == {} ==> r == Ok(ResultCommand(command.longname, params))
    ensures MissingRequired(command.arguments, params) != {} ==>
      && r.Err?
      && r.error.position == 0
      && r.error.error.argument in MissingRequired(command.arguments, params)
      && r.error.error == Error(r.error.error.argument, None, TypeArgument, RequiredArgument)
  {
    var required: set<Bytes> := {};
    for k := 0 to |command.arguments|
      invariant required == RequiredNames(command.arguments[..k])
    {
      assert command.arguments[..k + 1][..k] == command.arguments[..k];
      if command.arguments[k].required {
        required := required + {command.arguments[k].longname};
      }
    }
    assert command.arguments[..|command.arguments|] == command.arguments;
    for k := 0 to |params|
      invariant required == RequiredNames(command.arguments) - ArgumentNames(params[..k])
    {
      assert params[..k + 1][..k] == params[..k];
      if params[k].ArgumentValue? {
        required := required - {params[k].name};
      }
    }
    assert params[..|params|] == params;
    if required != {} {
      var missing :| missing in required;
      r := Err(PositionedError(Error(missing, None, TypeArgument, RequiredArgument), 0));
    } else {
      r := Ok(ResultCommand(command.longname, params));
    }
  }

  /** cmd::Parser: the configured commands and the optional global command. */
  class Parser {
    var globalCommand: Option<GlobalCommand>
    var commands: seq<Command>
    /** Declared by the source; nothing in the core reads or writes it. */
    var programName: Bytes

    constructor ()
      ensures globalCommand == None && commands == [] && programName == []
    {
      globalCommand, commands, programName := None, [], [];
    }

    /** add_command: appends a copy; earlier entries and their order are kept. */
    method AddCommand(command: Command)
      modifies this
      ensures commands == old(commands) + [command]
      ensures globalCommand == old(globalCommand) && programName == old(programName)
    {
      commands := commands + [command];
    }

    /** make_command: appends Command(longname) and yields the new last entry. */
    method MakeCommand(longname: Bytes) returns (command: Command)
      modifies this
      ensures commands == old(commands) + [Command.Named(longname)]
      ensures command == commands[|commands| - 1] && command.longname == longname
      ensures globalCommand == old(globalCommand) && programName == old(programName)
    {
      AddCommand(Command.Named(longname));
      command := commands[|commands| - 1];
    }

    /** set_global_command: stores the command inline. */
    method SetGlobalCommand(command: Command)
      modifies this
      ensures globalCommand == Some(Inline(command))
      ensures commands == old(commands) && programName == old(programName)
    {
      globalCommand := Some(Inline(command));
    }

    /**
     * get_global_command: none if no global command is configured; the one
     * stored inline; or the first configured command whose longname is the
     * stored name, none if there is no such command.
     */
    function GetGlobalCommand(): (r: Option<Command>)
      reads this
      ensures globalCommand.None? ==> r.None?
      ensures globalCommand.Some? && globalCommand.value.Inline? ==> r == Some(globalCommand.value.command)
      ensures globalCommand.Some? && globalCommand.value.ByName? ==>
        var name := globalCommand.value.name;
        && (r.None? <==> forall k :: 0 <= k < |commands| ==> commands[k].longname != name)
        && (r.Some? ==> exists k :: 0 <= k < |commands| && r.value == commands[k] && commands[k].longname == name
                                  && forall j :: 0 <= j < k ==> commands[j].longname != name)
    {
      match globalCommand
      case None => None
      case Some(Inline(command)) => Some(command)
      case Some(ByName(name)) =>
        match FindCommand(commands, Longname(name))
        case None => None
        case Some(k) => Some(commands[k])
    }

    /** Parser::parse. args[0] is the program and is never interpreted. */
    method Parse(h: Collaborators, args: seq<Bytes>) returns (r: Outcome<ParseResult>)
      requires |args| >= 1
      ensures Parses(h, GetGlobalCommand(), commands, args, r)
    {
      var program := args[0];
      var itarg := 1;
      var current: Option<Command>;
      if itarg == |args| || StartsWith(args[itarg], SHORT_PREFIX) {
        current := GetGlobalCommand();
      } else {
        var token := args[itarg];
        var charLength := h.utf8.charLength(token);
        if charLength.None? {
          r := Err(PositionedError(Error([], None, TypeNone, BadString), itarg));
          return;
        }
        var found: Option<nat>;
        if charLength.value <= |token| {
          var codepoint := h.utf8.codepoint(token);
          if codepoint.None? {
            // `.value()` on the failed decode throws
            r := Aborted;
            return;
          }
          found := FindCommand(commands, Shortname(codepoint.value));
        } else {
          found := FindCommand(commands, Longname(token));
        }
        if found.Some? {
          current := Some(commands[found.value]);
          itarg := itarg + 1;
        } else {
          current := GetGlobalCommand();
        }
      }
      if current.None? {
        r := Err(PositionedError(Error([], None, TypeCommand, NoGlobalCommand), itarg));
        return;
      }
      var parsed := ParseCommand(h, args[itarg..], current.value);
      match parsed {
        case Err(e) =>
          r := Err(e.(position := e.position + itarg));
        case Aborted =>
          r := Aborted;
        case Ok(command) =>
          r := Ok(ParseResult(program, command, []));
      }
    }
  }
}
