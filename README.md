# Command-line parsing engine of zExplorer's console application

This project models the argument parser of the console application in
Dafny and proves what it promises:

- **`cmd::Parser::parse`** chooses the command that governs the tokens. It is
  either the global command or the configured command matched by the first
  token after the program name.
- **`parse_command`** walks the command's tokens:
  - it rejects `---...` tokens;
  - it sends `--name[=value]` tokens to `parse_long_argument`;
  - it sends `-x` and `-abc` tokens to `parse_short_argument`;
  - it sends every other token to `add_input`;
  - after the walk, it checks that every required argument occurred.
- The **declarations** an application builds before parsing: the `Argument`,
  `Flag` and `Command` declarations with their builders, the `result::`
  types, and the `Parser` class with its command list and its global command.

## Layout

| file | module | contents |
|---|---|---|
| `utils.dfy` | `Wrappers`, `Utils` | `Option`, bytes, 32-bit integers, byte search, the decoder's interface and contract |
| `config.dfy` | `Config` | the declarations as values with their builders, and the first-match searches by longname or shortname |
| `results.dfy` | `Results` | parsed parameters, the result command and result, error types and codes, positioned errors, outcomes |
| `parser.dfy` | `Parsing` | the parsing pipeline (specification functions, and the methods proved equal to them) and the `Parser` class |
| `properties.dfy` | `ParserProperties` | lemmas about the specification functions: what the pipeline promises |

### How the model is built

- Tokens are byte strings (`seq<byte>`). Shortnames are `char32_t` codepoints (`uint32`).
- The UTF-8 decoder is a parameter: two functions, `charLength` and `codepoint`, that may fail. It must keep one contract: a decoded length is positive and at most the input's length.
- `add_flag`, `add_argument` and `add_input` are parameters too. Each one is given the parameters parsed so far. It either yields one parameter, which the parser appends to `result_command`, or an error. Their bodies are not part of this model.
- Each step of `parser.inl` appears twice:
  - as a specification function over values (`LongSpec`, `Bundle`, `ShortSpec`, `Advance`, `Walk`, `Resolve`);
  - as a method that works the way the source does, proved equal to that function.

  The methods are `ParseLongArgument`, `ParseBundle`, `ParseShortArgument`, `ParseToken`, `ParseCommand`, `CheckRequired` and `Parser.Parse`. They carry the source's mutable state:
  - the shared token cursor, which `parse_short_argument` advances past a value it consumes;
  - the bundle's byte offset;
  - the parameter list;
  - the set of required names, filled and then drained;
  - the error position patched by `+=`.
- `parse_command` and `Parser::parse` are specified by relations (`CommandParses`, `Parses`). When several required arguments are missing, the source names whichever one its hash set's iteration yields first. The model says only that a missing one is named.
- `Argument`, `Flag` and `Command` are copied by value in the source, so they are datatypes here. Each builder is a function returning the updated value. The `Parser`, whose members update its fields in place, is a class.
- `.value()` on a failed decode throws in the source. The model names that outcome `Aborted`. It happens for a command token whose codepoint does not decode (`parser.inl:40`) and for a short option whose name does not decode (`parser.inl:155`). The second case includes the bare token `-`, because under the decoder's contract the empty name cannot decode.

### Behaviour of the source the model keeps

- A short argument that is the last token fails `Argument/MissingValue` at position `|stream|`, one past the offending token. The shared cursor was advanced before the error was raised. For the same reason, when `add_argument` rejects a short argument's value, the error is reported at the value's token, one after the option's own.
- Every codepoint of a bundle `-abc` passes the whole bundle to `add_flag` as the name.
- A bundle is committed partially: the flags registered before a failing codepoint stay registered.
- The resolver searches commands by the shortname of the token's first codepoint whenever `utf8_char_length(token) <= token.size()`. Under the decoder's contract this always holds, so the search by longname (`parser.inl:44-47`) is never reached. A token equal to a command's longname does not select that command unless its first codepoint is that command's shortname. The source's own comments read the condition as a choice between a shortname lookup for a single-character token and a longname lookup otherwise (`parser.inl:25` and `parser.inl:38`); the model follows the code, not the comments.
- `parse_command` reads a `required` member of the argument declarations, and `parser.inl` raises error codes that the header's `Error::Code` enum does not declare: `FlagWithValue`, `MissingValue` and `UnknownParameter` in `parse_long_argument` and `parse_short_argument`, and `RequiredArgument` in `parse_command`. The model adds `required` (false by default) and the union of both lists of codes.

## Model

| member | source | states |
|---|---|---|
| Utils.ToUint32 | consoleapp/include/cmd_parser.h:50-57 | an `int` stored in a `uint32_t` bound keeps a non-negative value and wraps a negative one by 2^32 |
| Utils.IndexOf | consoleapp/include/cmd/parser.inl:85 | `find('=')`: the index of the first occurrence, no occurrence before it, and none at all when it reports nothing |
| Config.Argument.Named | consoleapp/include/cmd_parser.h:65-66 | `Argument(longname)`: the given longname, no shortname, bounds 0 and UINT32_MAX, not required |
| Config.Argument.WithShortname | consoleapp/include/cmd_parser.h:67-68 | `Argument(longname, shortname)`: both names as given, default bounds |
| Config.Argument.WithBounds | consoleapp/include/cmd_parser.h:69-70 | `Argument(longname, shortname, int, int)`: non-negative bounds are kept, a negative one becomes its value plus 2^32, so -1 becomes UINT32_MAX |
| Config.Argument.SetLongname | consoleapp/include/cmd_parser.h:28-31 | only the longname changes |
| Config.Argument.SetMin | consoleapp/include/cmd_parser.h:50-53 | only min changes; a non-negative int is kept and a negative one becomes its value plus 2^32 |
| Config.Argument.SetMax | consoleapp/include/cmd_parser.h:54-57 | only max changes; a non-negative int is kept and a negative one becomes its value plus 2^32 |
| Config.Flag.Named | consoleapp/include/cmd_parser.h:91-92 | `Flag(longname)`: the given longname, no shortname, bounds 0 and UINT32_MAX |
| Config.Flag.WithShortname | consoleapp/include/cmd_parser.h:93-94 | `Flag(longname, shortname)`: both names as given, default bounds |
| Config.Flag.WithBounds | consoleapp/include/cmd_parser.h:95-96 | `Flag(longname, shortname, int, int)`: non-negative bounds are kept, a negative one becomes its value plus 2^32, so -1 becomes UINT32_MAX |
| Config.Flag.SetLongname | consoleapp/include/cmd_parser.h:28-31 | only the longname changes |
| Config.Flag.SetMin | consoleapp/include/cmd_parser.h:50-53 | only min changes; a non-negative int is kept and a negative one becomes its value plus 2^32 |
| Config.Flag.SetMax | consoleapp/include/cmd_parser.h:54-57 | only max changes; a non-negative int is kept and a negative one becomes its value plus 2^32 |
| Config.Command.Named | consoleapp/include/cmd_parser.h:110-111 | `Command(longname)`: no shortname, no arguments, no flags |
| Config.Command.WithShortname | consoleapp/include/cmd_parser.h:112-113 | `Command(longname, shortname)`: both names as given, no parameters |
| Config.Command.SetLongname | consoleapp/include/cmd_parser.h:28-31 | only the longname changes |
| Config.Command.AddArgument | consoleapp/include/cmd_parser.h:120-123 | one more argument, at the end; earlier arguments and all flags unchanged |
| Config.Command.AddFlag | consoleapp/include/cmd_parser.h:124-127 | one more flag, at the end; earlier flags and all arguments unchanged |
| Config.Command.MakeArgument | consoleapp/include/cmd_parser.h:128-130 | appends `Argument(longname)` and yields the new last element, with that longname; the shortname parameter is ignored |
| Config.Command.MakeFlag | consoleapp/include/cmd_parser.h:131-133 | appends `Flag(longname)` and yields the new last element, with that longname |
| Config.FindArgument | consoleapp/include/cmd/parser.inl:226-228 | `find_if` over arguments by key: the first matching index, nothing matching before it, and none at all when nothing is found |
| Config.FindFlag | consoleapp/include/cmd/parser.inl:217-219 | `find_if` over flags by key: the first matching index, nothing matching before it, and none at all when nothing is found |
| Config.FindCommand | consoleapp/include/cmd/parser.inl:41-43 | `find_if` over commands by key: the first matching index, nothing matching before it, and none at all when nothing is found |
| Results.Outcome.Offset | consoleapp/include/cmd/parser.inl:294-296 | `error().position += d` moves an error's position by d, keeps the error, and leaves success and abort alone |
| Parsing.Register | consoleapp/include/cmd/parser.inl:111-114 | a registration that succeeds appends exactly its parameter; a rejected one keeps the parameters and fails with its error |
| Parsing.LongSpec | consoleapp/include/cmd/parser.inl:79-146 | `parse_long_argument` never aborts; it adds exactly one parameter, after the earlier ones, when it succeeds, and none when it fails |
| Parsing.Bundle | consoleapp/include/cmd/parser.inl:155-201 | the parameters before a bundle are a prefix of those after it whatever its outcome, so the flags registered before a failure stay registered; a bundle never aborts |
| Parsing.SplitLong | consoleapp/include/cmd/parser.inl:85-94 | without `=` the name is everything after `--` and there is no value; with `=` the name holds no `=` and `--`, name, `=` and value concatenate back to the token |
| Parsing.ShortSpec | consoleapp/include/cmd/parser.inl:229-241 | the shared cursor stays on the token or moves exactly one further, and it is still inside the stream whenever the step succeeds |
| Parsing.Advance | consoleapp/include/cmd/parser.inl:269-298 | each loop iteration moves the cursor by zero or one extra token, and a successful iteration leaves it inside the stream |
| Parsing.Walk | consoleapp/include/cmd/parser.inl:269-298 | the token loop keeps the parameters it started with, in order, whatever its outcome |
| Parsing.RequiredNames | consoleapp/include/cmd/parser.inl:300-305 | exactly the longnames of the arguments declared required |
| Parsing.ArgumentNames | consoleapp/include/cmd/parser.inl:306-313 | exactly the names carried by the Argument parameters |
| Parsing.MissingRequired | consoleapp/include/cmd/parser.inl:300-314 | exactly the required longnames that no Argument parameter carries |
| Parsing.CommandParses | consoleapp/include/cmd/parser.inl:265-326 | a success comes only after a successful walk, is named by the command's longname and carries the walk's parameters; after a successful walk the only failure is `RequiredArgument` at position 0; an abort comes only from the walk |
| Parsing.Fallback | consoleapp/include/cmd/parser.inl:57-66 | the global command governs from the given index when there is one; otherwise `Command/NoGlobalCommand` at that index |
| Parsing.Select | consoleapp/include/cmd/parser.inl:41-55 | succeeds exactly when some command matches the key or a global command exists; a matching command consumes the token (stream from index 2) and itself matches; without one the global command governs from index 1 |
| Parsing.Parses | consoleapp/include/cmd/parser.inl:13-77 | no success without a resolved command; an error of the command's stream is never reported before the index where that stream starts |
| Parsing.Resolve | consoleapp/include/cmd/parser.inl:17-56 | a resolved command's stream starts at index 1, or at 2 once the command token is consumed, and within the arguments |
| Parsing.ParseLongArgument | consoleapp/include/cmd/parser.inl:79-146 | the method computes `LongSpec`: the same parameters and the same outcome |
| Parsing.ParseBundle | consoleapp/include/cmd/parser.inl:155-201 | the loop over byte offsets advancing by each decoded length computes `Bundle` from offset 0 |
| Parsing.ParseShortArgument | consoleapp/include/cmd/parser.inl:148-261 | the method computes `ShortSpec`: parameters, outcome and where it leaves the shared cursor |
| Parsing.ParseToken | consoleapp/include/cmd/parser.inl:270-297 | one iteration of the token loop computes `Advance`, including the position patch |
| Parsing.ParseCommand | consoleapp/include/cmd/parser.inl:265-326 | the token loop and the post-validation together give what `CommandParses` allows |
| Parsing.CheckRequired | consoleapp/include/cmd/parser.inl:300-325 | success with the parsed parameters when no required name is missing; otherwise `Argument/RequiredArgument` at position 0 naming a missing one |
| Parsing.Parser.constructor | consoleapp/include/cmd_parser.h:186-189 | no global command and no commands |
| Parsing.Parser.AddCommand | consoleapp/include/cmd_parser.h:193-196 | appends the command; earlier entries, their order and the global command are kept |
| Parsing.Parser.MakeCommand | consoleapp/include/cmd_parser.h:197-199 | appends `Command(longname)` and yields the new last entry |
| Parsing.Parser.SetGlobalCommand | consoleapp/include/cmd_parser.h:200-203 | the global command becomes the given command, stored inline; the command list is kept |
| Parsing.Parser.GetGlobalCommand | consoleapp/include/cmd_parser.h:206-219 | none without a global command; the inline command itself; or the first command with the stored longname, none exactly when no command has it |
| Parsing.Parser.Parse | consoleapp/include/cmd/parser.inl:13-77 | resolution then `parse_command` on the rest of the arguments give what `Parses` allows |
| ParserProperties.SplitAtFirstEquals | consoleapp/include/cmd/parser.inl:85-94 | cutting at an `=` that the name part does not contain determines name and value uniquely |
| ParserProperties.SplitLongRoundTrip | consoleapp/include/cmd/parser.inl:85-94 | splitting `--name` or `--name=value`, for a name without `=`, gives back that name and value, whatever `=` the value holds |
| ParserProperties.LongFlagWithValue | consoleapp/include/cmd/parser.inl:99-110 | `--name=value` naming a flag fails `Flag/FlagWithValue` and adds nothing |
| ParserProperties.LongFlagsFirst | consoleapp/include/cmd/parser.inl:95-114 | `--name` registers the first flag with that longname, whatever arguments share the name |
| ParserProperties.LongArgumentMissingValue | consoleapp/include/cmd/parser.inl:116-128 | `--name` naming an argument, and no flag, fails `Argument/MissingValue` |
| ParserProperties.LongArgumentValue | consoleapp/include/cmd/parser.inl:116-132 | `--name=value` naming an argument, and no flag, hands that value to add_argument for the first such argument |
| ParserProperties.LongUnknown | consoleapp/include/cmd/parser.inl:133-143 | a long name matching neither a flag nor an argument fails `Argument/UnknownParameter` |
| ParserProperties.BundleOkOnlyIfAllFlags | consoleapp/include/cmd/parser.inl:157-201 | a bundle succeeds only if each of its codepoints decodes and is some flag's shortname |
| ParserProperties.BundleOkIfAllFlags | consoleapp/include/cmd/parser.inl:157-201 | when add_flag accepts, a bundle of decodable flag shortnames succeeds |
| ParserProperties.BundleDecodeFailure | consoleapp/include/cmd/parser.inl:158-180 | a codepoint that does not decode fails `Flag/BadString`, naming the whole bundle and keeping what was registered |
| ParserProperties.BundlePartialCommit | consoleapp/include/cmd/parser.inl:182-199 | in `-ab` with a known and b unknown, a's flag stays registered and the bundle fails `Flag/UnknownParameter` |
| ParserProperties.BundleRejectsUnknown | consoleapp/include/cmd/parser.inl:182-194 | a decoded codepoint that is no flag's shortname fails the bundle `Flag/UnknownParameter`, naming the whole bundle and keeping the parameters |
| ParserProperties.ShortFlagFirst | consoleapp/include/cmd/parser.inl:217-224 | a single short name matching a flag registers the first such flag, whatever arguments share the shortname |
| ParserProperties.ShortArgumentTakesNext | consoleapp/include/cmd/parser.inl:226-245 | a short argument takes the next token as its value and the loop resumes after that token |
| ParserProperties.ShortArgumentMissingValue | consoleapp/include/cmd/parser.inl:229-241 | a short argument in the last token fails `Argument/MissingValue` at the stream's length |
| ParserProperties.ShortUnknown | consoleapp/include/cmd/parser.inl:246-256 | a single short name matching nothing fails `Argument/UnknownParameter` at its token |
| ParserProperties.WalkFromReached | consoleapp/include/cmd/parser.inl:269-298 | the loop's result from a point it reaches is its result from the start |
| ParserProperties.AdvanceLocal | consoleapp/include/cmd/parser.inl:230-242 | one iteration reads only its own token and the next one |
| ParserProperties.ReachesOnPrefix | consoleapp/include/cmd/parser.inl:269-298 | whether the loop reaches token k depends only on the tokens up to k |
| ParserProperties.TripleDashStops | consoleapp/include/cmd/parser.inl:273-283 | a reached `---` token fails `None/SyntaxError` at its index, and the tokens after it do not change the result |
| ParserProperties.ReachedFailure | consoleapp/include/cmd/parser.inl:269-298 | a failing iteration at any token the loop reaches is the outcome of the whole loop |
| ParserProperties.LongErrorPosition | consoleapp/include/cmd/parser.inl:285-296 | the error of `parse_long_argument` on a reached `--` token is reported at its own position plus the token's index |
| ParserProperties.ShortCursor | consoleapp/include/cmd/parser.inl:229-241 | `parse_short_argument` moves the shared cursor one token further exactly when a single short argument takes a value, and leaves it on the token otherwise |
| ParserProperties.AdvanceCursor | consoleapp/include/cmd/parser.inl:229-230 | one loop iteration leaves the cursor on its token, for `---`, `--`, input and every other `-` token, and moves it one further exactly when a single short argument takes its value |
| ParserProperties.ReachedSuccess | consoleapp/include/cmd/parser.inl:269-298 | after a reached token's iteration succeeds, the loop goes on from the next token, or from the one after when a short argument took the value, with the iteration's parameters |
| ParserProperties.ShortErrorPosition | consoleapp/include/cmd/parser.inl:288-296 | the error of `parse_short_argument` on a reached `-` token (bundle, flag or argument) is reported at its own position plus the token's index, plus one when a short argument moved the cursor |
| ParserProperties.ShortArgumentRejected | consoleapp/include/cmd/parser.inl:229-245 | when add_argument rejects a short argument's value, the walk fails with that error moved to one past the option's index, keeping the earlier parameters |
| ParserProperties.InputErrorPosition | consoleapp/include/cmd/parser.inl:290-296 | a reached token without `-` goes to add_input, and its rejection is reported at its own position plus the token's index, keeping the earlier parameters |
| ParserProperties.RequiredArgumentsDecide | consoleapp/include/cmd/parser.inl:300-325 | after the walk, success exactly when every required longname is carried by an Argument parameter; otherwise `Argument/RequiredArgument` naming a required argument that no parameter carries |
| ParserProperties.EmptyStream | consoleapp/include/cmd/parser.inl:265-326 | with no tokens, the command parses to no parameters exactly when no argument is required |
| ParserProperties.ResolveWithoutCommandToken | consoleapp/include/cmd/parser.inl:22-23 | with no token after the program, or one starting with `-`, the global command governs from index 1, or the parse fails `Command/NoGlobalCommand` at 1 |
| ParserProperties.ResolveMatched | consoleapp/include/cmd/parser.inl:39-52 | the first command whose shortname is the token's codepoint governs and the token is consumed |
| ParserProperties.ResolveUnmatched | consoleapp/include/cmd/parser.inl:53-55 | a token whose codepoint is no command's shortname falls back to the global command and is not consumed |
| ParserProperties.ResolveSelectsByShortname | consoleapp/include/cmd/parser.inl:37-52 | whenever the token selects a command, it is the first command whose shortname is the token's codepoint |
| ParserProperties.ShortnameSearchAlways | consoleapp/include/cmd/parser.inl:26-55 | under the decoder's contract, resolving a command token that decodes is always the shortname selection (or the abort of a failed codepoint); the longname search is never reached |
| ParserProperties.ParseSuccess | consoleapp/include/cmd/parser.inl:13-77 | on success the program is `args[0]`, the top-level parameters are empty and the command's name is the resolved command's longname |
| ParserProperties.ParseNoGlobalCommand | consoleapp/include/cmd/parser.inl:22-66 | falling back to an absent global command fails `Command/NoGlobalCommand` at index 1, both with no command token and with a token whose codepoint is no command's shortname |
| ParserProperties.ParseCommandErrorOffset | consoleapp/include/cmd/parser.inl:70-74 | an error of the command's walk is reported moved by where the command's stream starts |
| ParserProperties.ParseTripleDash | consoleapp/include/cmd/parser.inl:273-283 | a reached `---` token fails the whole parse `None/SyntaxError` at its index in the full argument list |

## Left out

- The UTF-8 decoder (`cmd::utils::uni::utf8_char_length` and `codepoint`) is not part of this model. It is a parameter, and only its length contract is stated.
- `add_flag`, `add_argument` and `add_input` are not part of this model. They are parameters, so the following are not modelled: occurrence counting, the min/max bound checks, validator calls, and how repeated arguments are merged. For the same reason no round trip from declarations to parsed names is stated.
- The `description`, `metavar` and `default_value` fields, `set_description`, `set_metavar` and `set_default_value` have no effect on parsing and are not modelled.
- The `validator` field and `set_validator` are not modelled. The validator is read only by `add_argument`, which receives the whole declaration (`parser.inl:129` and `parser.inl:242`), so a validator's rejection becomes the parse's error. Here `add_argument` is a parameter and the model's `Argument` leaves the field out, so the model cannot tell two declarations apart by their validators.
- `set_shortname(std::string_view)` is not modelled. Besides the `return *this` problem of all the setters (next line), it assigns a string to an optional codepoint, so even its body does not compile.
- The setters `set_longname`, `set_description` (`cmd_parser.h:28-39`), `set_min` and `set_max` (`cmd_parser.h:50-57`) end in `return *this;`. That binds a `Common<CRTP>` or `MinMax<CRTP>` lvalue to a `CRTP&`, a downcast that is ill-formed, so any call of them fails to compile as written. The model gives the evident intent: the effect of the field assignment, returning the updated value. The seven members below inherit this.
- Config.Argument.SetLongname: models the assignment of `cmd_parser.h:29`; the source's `return *this` does not compile once called.
- Config.Argument.SetMin: models the assignment of `cmd_parser.h:51`; the source's `return *this` does not compile once called.
- Config.Argument.SetMax: models the assignment of `cmd_parser.h:55`; the source's `return *this` does not compile once called.
- Config.Flag.SetLongname: models the assignment of `cmd_parser.h:29`; the source's `return *this` does not compile once called.
- Config.Flag.SetMin: models the assignment of `cmd_parser.h:51`; the source's `return *this` does not compile once called.
- Config.Flag.SetMax: models the assignment of `cmd_parser.h:55`; the source's `return *this` does not compile once called.
- Config.Command.SetLongname: models the assignment of `cmd_parser.h:29`; the source's `return *this` does not compile once called.
- The commented-out subcommand stub of `Command` is not modelled.
- The member declarations without definitions in the header are not modelled: `parse(std::span)`, `parse_argument`, `parse_flag` and `parse_command(std::span)`. They do not match the definitions that `parser.inl` provides.
- `Error::to_string` and the `expected` container of `expected.h` are not modelled. The container is replaced by the `Outcome` datatype.
- The references the source's builders return (`make_argument` returns `Argument&` into the vector, `make_command` returns `Command&`) are not modelled. The model yields the new element's value, so changing the element later through that reference is not modelled.
- The `program_name` field of the `Parser` is declared but never read by the parse. It is kept, unused.
- Command.MakeArgument: the shortname parameter is accepted and ignored, as in the source.
- CheckRequired: which missing name is reported is chosen arbitrarily. The source takes the first in its hash set's iteration order, which is unspecified, so the model does not pin it down.
- Parsing.CommandParses: relates a command and its tokens to any outcome naming a missing required argument, for the same reason.
- A C++ exception thrown by `.value()` on a failed decode is represented by the outcome `Aborted`. The model does not describe the exception any further.
