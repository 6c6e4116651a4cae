/**
 * The result:: types of consoleapp/include/cmd_parser.h: parsed parameters,
 * the parsed command, the overall result, and positioned errors.
 */
module Results {
  import opened Wrappers
  import opened Utils

  /** result::Parameter, the variant of result::Argument and result::Flag. */
  datatype Parameter =
    | ArgumentValue(name: Bytes, value: Bytes)
    | FlagCount(name: Bytes, occurrence: uint32)

  /** result::Command: the resolved command's name and the parameters parsed for it. */
  datatype ResultCommand = ResultCommand(name: Bytes, parameters: seq<Parameter>)

  /**
   * result::Result. The top-level `parameters` is declared by the source and
   * never filled by the parse.
   */
  datatype ParseResult = ParseResult(program: Bytes, command: ResultCommand, parameters: seq<Parameter>)

  /** result::Error::Type */
  datatype ErrorType = TypeArgument | TypeFlag | TypeCommand | TypeNone | TypeUnknown

  /**
   * result::Error::Code: the codes the header's enum declares together with
   * the four that parser.inl raises beyond them.
   */
  datatype ErrorCode =
    | MissingArgument | MissingCommand | MissingFlag | NoGlobalCommand | BadCommand
    | UnknownName | InvalidValue | OutOfBound | SyntaxError | BadString
    | FlagWithValue | MissingValue | UnknownParameter | RequiredArgument

  datatype Error = Error(argument: Bytes, value: Option<Bytes>, kind: ErrorType, code: ErrorCode)

  /** result::PositionnedError: an error and the index of the token it concerns. */
  datatype PositionedError = PositionedError(error: Error, position: nat)

  /**
   * What a parsing step yields: a value, a positioned error, or Aborted when
   * the source calls `.value()` on a failed decode, which throws instead of
   * returning.
   */
  datatype Outcome<+T> = Ok(value: T) | Err(error: PositionedError) | Aborted
  {
    /** `error().position += d` applied as an error unwinds through a loop. */
    function Offset(d: nat): (r: Outcome<T>)
      ensures Err? ==> r.Err? && r.error.error == error.error && r.error.position == error.position + d
      ensures !Err? ==> r == this
    {
      match this
      case Err(e) => Err(e.(position := e.position + d))
      case _ => this
    }
  }
}
