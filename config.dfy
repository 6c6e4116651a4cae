/**
 * The declarative configuration of consoleapp/include/cmd_parser.h:
 * arguments, flags and commands. In the source these are value types
 * (copied into vectors and into the parser), so they are datatypes here and
 * each in-place builder is a function returning the updated value:
 * `command.add_flag(f)` on a variable is `command := command.AddFlag(f)`.
 */
module Config {
  import opened Wrappers
  import opened Utils

  /** std::numeric_limits<uint32_t>::max(), the default upper occurrence bound. */
  const UINT32_MAX: uint32 := 0xFFFF_FFFF

  /** A valued parameter, matched by longname or by shortname codepoint. */
  datatype Argument = Argument(longname: Bytes, shortname: Option<Char32>, min: uint32, max: uint32, required: bool)
  {
    /** Argument(longname): no shortname, default MinMax bounds, not required. */
    static function Named(longname: Bytes): (a: Argument)
      ensures a.longname == longname && a.shortname == None && !a.required
      ensures a.min == 0 && a.max as int == 0x1_0000_0000 - 1
    {
      Argument(longname, None, 0, UINT32_MAX, false)
    }

    /** Argument(longname, shortname), default bounds. */
    static function WithShortname(longname: Bytes, shortname: Char32): (a: Argument)
      ensures a.longname == longname && a.shortname == Some(shortname) && !a.required
      ensures a.min == 0 && a.max == UINT32_MAX
    {
      Argument(longname, Some(shortname), 0, UINT32_MAX, false)
    }

    /** Argument(longname, shortname, int min, int max): the ints are converted to uint32_t. */
    static function WithBounds(longname: Bytes, shortname: Option<Char32>, min: int32, max: int32): (a: Argument)
      ensures a.longname == longname && a.shortname == shortname && !a.required
      ensures min >= 0 ==> a.min as int == min as int
      ensures min < 0 ==> a.min as int == min as int + 0x1_0000_0000
      ensures max >= 0 ==> a.max as int == max as int
      ensures max < 0 ==> a.max as int == max as int + 0x1_0000_0000
      ensures max == -1 ==> a.max == UINT32_MAX
    {
      Argument(longname, shortname, ToUint32(min), ToUint32(max), false)
    }

    function SetLongname(name: Bytes): (a: Argument)
      ensures a.longname == name
      ensures a.shortname == shortname && a.min == min && a.max == max && a.required == required
    {
      this.(longname := name)
    }

    /** set_min(int): a negative bound wraps around by 2^32 to a large unsigned one. */
    function SetMin(m: int32): (a: Argument)
      ensures m >= 0 ==> a.min as int == m as int
      ensures m < 0 ==> a.min as int == m as int + 0x1_0000_0000
      ensures a.longname == longname && a.shortname == shortname && a.max == max && a.required == required
    {
      this.(min := ToUint32(m))
    }

    /** set_max(int): a negative bound wraps around by 2^32 to a large unsigned one. */
    function SetMax(m: int32): (a: Argument)
      ensures m >= 0 ==> a.max as int == m as int
      ensures m < 0 ==> a.max as int == m as int + 0x1_0000_0000
      ensures a.longname == longname && a.shortname == shortname && a.min == min && a.required == required
    {
      this.(max := ToUint32(m))
    }
  }

  /** A parameter without a value, counted by occurrence. */
  datatype Flag = Flag(longname: Bytes, shortname: Option<Char32>, min: uint32, max: uint32)
  {
    static function Named(longname: Bytes): (f: Flag)
      ensures f.longname == longname && f.shortname == None
      ensures f.min == 0 && f.max as int == 0x1_0000_0000 - 1
    {
      Flag(longname, None, 0, UINT32_MAX)
    }

    static function WithShortname(longname: Bytes, shortname: Char32): (f: Flag)
      ensures f.longname == longname && f.shortname == Some(shortname)
      ensures f.min == 0 && f.max == UINT32_MAX
    {
      Flag(longname, Some(shortname), 0, UINT32_MAX)
    }

    static function WithBounds(longname: Bytes, shortname: Option<Char32>, min: int32, max: int32): (f: Flag)
      ensures f.longname == longname && f.shortname == shortname
      ensures min >= 0 ==> f.min as int == min as int
      ensures min < 0 ==> f.min as int == min as int + 0x1_0000_0000
      ensures max >= 0 ==> f.max as int == max as int
      ensures max < 0 ==> f.max as int == max as int + 0x1_0000_0000
      ensures max == -1 ==> f.max == UINT32_MAX
    {
      Flag(longname, shortname, ToUint32(min), ToUint32(max))
    }

    function SetLongname(name: Bytes): (f: Flag)
      ensures f.longname == name
      ensures f.shortname == shortname && f.min == min && f.max == max
    {
      this.(longname := name)
    }

    function SetMin(m: int32): (f: Flag)
      ensures m >= 0 ==> f.min as int == m as int
      ensures m < 0 ==> f.min as int == m as int + 0x1_0000_0000
      ensures f.longname == longname && f.shortname == shortname && f.max == max
    {
      this.(min := ToUint32(m))
    }

    function SetMax(m: int32): (f: Flag)
      ensures m >= 0 ==> f.max as int == m as int
      ensures m < 0 ==> f.max as int == m as int + 0x1_0000_0000
      ensures f.longname == longname && f.shortname == shortname && f.min == min
    {
      this.(max := ToUint32(m))
    }
  }

  /** A command: its identity and the parameters it declares, in declaration order. */
  datatype Command = Command(longname: Bytes, shortname: Option<Char32>, arguments: seq<Argument>, flags: seq<Flag>)
  {
    static function Named(longname: Bytes): (c: Command)
      ensures c.longname == longname && c.shortname == None
      ensures c.arguments == [] && c.flags == []
    {
      Command(longname, None, [], [])
    }

    static function WithShortname(longname: Bytes, shortname: Char32): (c: Command)
      ensures c.longname == longname && c.shortname == Some(shortname)
      ensures c.arguments == [] && c.flags == []
    {
      Command(longname, Some(shortname), [], [])
    }

    function SetLongname(name: Bytes): (c: Command)
      ensures c.longname == name
      ensures c.shortname == shortname && c.arguments == arguments && c.flags == flags
    {
      this.(longname := name)
    }

    /** add_argument: one element more, at the end; the earlier ones and the flags are kept. */
    function AddArgument(a: Argument): (c: Command)
      ensures |c.arguments| == |arguments| + 1
      ensures c.arguments[..|arguments|] == arguments && c.arguments[|arguments|] == a
      ensures c.longname == longname && c.shortname == shortname && c.flags == flags
    {
      this.(arguments := arguments + [a])
    }

    /** add_flag: one element more, at the end; the earlier ones and the arguments are kept. */
    function AddFlag(f: Flag): (c: Command)
      ensures |c.flags| == |flags| + 1
      ensures c.flags[..|flags|] == flags && c.flags[|flags|] == f
      ensures c.longname == longname && c.shortname == shortname && c.arguments == arguments
    {
      this.(flags := flags + [f])
    }

    /**
     * make_argument: appends Argument(longname) and yields the new last
     * element. Its shortname parameter is accepted and ignored.
     */
    function MakeArgument(name: Bytes, shortname': Option<Bytes>): (r: (Command, Argument))
      ensures r.0 == AddArgument(Argument.Named(name))
      ensures |r.0.arguments| > 0 && r.1 == r.0.arguments[|r.0.arguments| - 1]
      ensures r.1.longname == name && r.1.shortname == None
    {
      var c := AddArgument(Argument.Named(name));
      (c, c.arguments[|c.arguments| - 1])
    }

    /** make_flag: appends Flag(longname) and yields the new last element. */
    function MakeFlag(name: Bytes): (r: (Command, Flag))
      ensures r.0 == AddFlag(Flag.Named(name))
      ensures |r.0.flags| > 0 && r.1 == r.0.flags[|r.0.flags| - 1]
      ensures r.1.longname == name && r.1.shortname == None
    {
      var c := AddFlag(Flag.Named(name));
      (c, c.flags[|c.flags| - 1])
    }
  }

  /**
   * The parser's global command: stored inline, or named by the longname of
   * one of the configured commands.
   */
  datatype GlobalCommand = Inline(command: Command) | ByName(name: Bytes)

  /**
   * What the parser looks a parameter or a command up by: its exact
   * longname, or its shortname codepoint.
   */
  datatype Key = Longname(name: Bytes) | Shortname(cp: Char32)
  {
    predicate Matches(longname: Bytes, shortname: Option<Char32>) {
      match this
      case Longname(n) => longname == n
      case Shortname(c) => shortname == Some(c)
    }
  }

  // The std::find_if searches of the parser, one per kind of entity: the
  // index of the first entity matching the key, if any. The three entity
  // types share no supertype here, so one generic search would need the
  // name projection passed as a closure; writing the search once per type
  // keeps every proof that uses it free of closures.

  function FindArgument(s: seq<Argument>, key: Key): (r: Option<nat>)
    ensures r.Some? ==> r.value < |s| && key.Matches(s[r.value].longname, s[r.value].shortname)
    ensures r.Some? ==> forall j :: 0 <= j < r.value ==> !key.Matches(s[j].longname, s[j].shortname)
    ensures r.None? ==> forall j :: 0 <= j < |s| ==> !key.Matches(s[j].longname, s[j].shortname)
  {
    if s == [] then None
    else if key.Matches(s[0].longname, s[0].shortname) then Some(0)
    else match FindArgument(s[1..], key)
      case None => None
      case Some(k) => Some(k + 1)
  }

  function FindFlag(s: seq<Flag>, key: Key): (r: Option<nat>)
    ensures r.Some? ==> r.value < |s| && key.Matches(s[r.value].longname, s[r.value].shortname)
    ensures r.Some? ==> forall j :: 0 <= j < r.value ==> !key.Matches(s[j].longname, s[j].shortname)
    ensures r.None? ==> forall j :: 0 <= j < |s| ==> !key.Matches(s[j].longname, s[j].shortname)
  {
    if s == [] then None
    else if key.Matches(s[0].longname, s[0].shortname) then Some(0)
    else match FindFlag(s[1..], key)
      case None => None
      case Some(k) => Some(k + 1)
  }

  function FindCommand(s: seq<Command>, key: Key): (r: Option<nat>)
    ensures r.Some? ==> r.value < |s| && key.Matches(s[r.value].longname, s[r.value].shortname)
    ensures r.Some? ==> forall j :: 0 <= j < r.value ==> !key.Matches(s[j].longname, s[j].shortname)
    ensures r.None? ==> forall j :: 0 <= j < |s| ==> !key.Matches(s[j].longname, s[j].shortname)
  {
    if s == [] then None
    else if key.Matches(s[0].longname, s[0].shortname) then Some(0)
    else match FindCommand(s[1..], key)
      case None => None
      case Some(k) => Some(k + 1)
  }
}
