# Hardcord.js command routing: a Dafny model

Hardcord.js is a discord.js client with text commands. This project models its
pure logic and proves properties about it:

- **The command builder** (`CommandBuilder`). It is a record that a chain of
  configuration calls fills in: defaults, aliases, five typed key lists
  (number, string, boolean, array, count) and an optional handler.
- **The `run` method of the builder.** It strips the mention and the prefix
  from a message, parses the remaining text, and turns the parser's result
  into `args` and `flags`. Then it calls the handler, or replies with a
  `CommandError` if there is no handler.
- **Two routers.**
  - The builder-based `Client` (`src/Client.ts`) picks the first registered
    name that is a prefix of the stripped text.
  - The older function-based `Client` (`src/index.ts`) parses the text first,
    then looks up the first positional by exact name.

Each module follows one piece of the source:

| module | file | models |
|---|---|---|
| `Wrappers` | wrappers.dfy | the `Option` type the lookups return |
| `JsValues` | values.dfy | parsed values and `String(value)`, including an integer's decimal text and how to read it back |
| `JsText` | text.dfy | `startsWith` (Dafny's `<=`), `replace` with a string pattern (first occurrence only), and the one-layer quote strip `/^['"](.*)['"]$/` |
| `OrderedMaps` | ordered_map.dfy | the insertion-ordered `Collection`/`Map` that holds the registered commands |
| `Yargs`, `Addressing`, `Dispatch` | routing.dfy | the parser boundary, the mention/prefix logic shared by the routers, and the try/catch-to-reply step |
| `CommandBuilder` | command_builder.dfy | `src/CommandBuilder.ts` |
| `BuilderClient`, `FunctionClient` | clients.dfy | `src/Client.ts` and `src/index.ts` |

`yargs-parser` is a foreign library. The model does not implement it. Every
operation that parses takes the parser as a function argument of type
`(string, ParserOptions) -> Argv`, and every property holds whatever that
function returns. `Argv` is the parser's result object. It always has the key
`"_"`, which holds the array of positionals. This lets the flag filters act on
the same object entries that `Object.entries` sees.

Handlers are opaque values. The outcome of calling one is also an argument:
`call: (H, input) -> Completion`. The handler either returns or throws a
payload. Observable behaviour is a trace of `Invoked(handler, input)` and
`Replied(failure)` effects.

Three behaviours of the builder are easy to misread:

- **Redeclaring a key's kind.** Redeclaring a key's kind does not remove the
  earlier kind: the code only pushes the key onto another list. A key can
  therefore sit in several kind lists at once, and duplicates are kept
  (`NoLastKindWins`, `ToNumberKeepsDuplicates`).
- **Aliases.** Aliases are one list per long key, not a set per flag, and
  `setAlias` replaces that list rather than adding to it (`SetAliasLastWins`).
- **The quote strip.** The quotes need not match: the regular expression
  accepts any two quote characters, the same or different, as long as no line
  terminator lies between them (`UnquoteWrap`, `UnquoteKeepsMultiline`).

These behaviours of the source are modelled as written:

- **The prefix is not anchored.** The prefix is removed at its first
  occurrence anywhere in the text, not only at the start
  (`ReplaceFirstNotAnchored`).
- **No word boundary after a command name.** The builder client needs none, so
  an earlier `add` catches `addAll` (`EarlierPrefixWins`).
- **An empty command name.** `Client.ts` tests the found name for
  truthiness. A command registered under `""` matches every text, so it blocks
  every text that no earlier name is a prefix of; registered first, it blocks
  every dispatch (`EmptyNameBlocksLater`, `EmptyNameFirstBlocksAll`).
- **Two mention strips.** The builder client removes the mention and one
  following space before it looks up the command name. `run` and the function
  client remove the mention only (`StripMentionAndSpaceOfMention`,
  `StripMentionOfMention`).
- **The mention test.** `Client.ts` tests for a mention with `^<@!?id> ?` and
  `index.ts` with `^<@!?id>`. The optional space does not change whether the
  pattern matches, so both routers share one predicate, `IsAddressed`.

## Model

| member | source | states |
|---|---|---|
| CommandBuilder.NewBuilder | src/CommandBuilder.ts:56-63 | a fresh builder has no handler, no defaults, no aliases, and no key of any kind |
| CommandBuilder.Default | src/CommandBuilder.ts:67-71 | the key's default becomes the value, overwriting any earlier one; other defaults, aliases, kind lists and handler are unchanged |
| CommandBuilder.DefaultLastWins | src/CommandBuilder.ts:67-71 | two defaults for the same key leave the builder as if only the second had been set |
| CommandBuilder.ToNumber | src/CommandBuilder.ts:75-79 | the key is appended once to the number list and nowhere else, and its occurrence count there rises by one; afterwards a key has a kind if and only if it had that kind before or it is this key and the kind is Number |
| CommandBuilder.ToBoolean | src/CommandBuilder.ts:83-87 | the key is appended once to the boolean list only; kinds change only by this key gaining Boolean; nothing else changes |
| CommandBuilder.ToString | src/CommandBuilder.ts:91-95 | the key is appended once to the string list only; kinds change only by this key gaining String; nothing else changes |
| CommandBuilder.ToNumberKeepsDuplicates | src/CommandBuilder.ts:75-79 | declaring the same number key twice keeps both entries, so the call is not idempotent |
| CommandBuilder.NoLastKindWins | src/CommandBuilder.ts:75-87 | a key declared as number and then as boolean is in both kinds; the later declaration does not remove the earlier |
| CommandBuilder.PushEach | src/CommandBuilder.ts:104 | pushing keys one at a time keeps the old list as a prefix, then places every key in order |
| CommandBuilder.PushEachAppends | src/CommandBuilder.ts:104 | the forEach of pushes equals appending the whole key list |
| CommandBuilder.ToArray | src/CommandBuilder.ts:102-107 | the array list grows by exactly the number of keys given (one for a single key), in order after the old list; kinds change only by the given keys gaining Array; nothing else changes |
| CommandBuilder.RepeatToArrayAppends | src/CommandBuilder.ts:102-107 | single-key toArray calls, one per key, append the keys in order and change nothing else |
| CommandBuilder.ToArrayManyIsRepeatedOne | src/CommandBuilder.ts:102-107 | toArray with a list equals one single-key toArray per key, in order |
| CommandBuilder.ToCount | src/CommandBuilder.ts:114-119 | the count list grows by exactly the keys given, in order; kinds change only by the given keys gaining Count; nothing else changes |
| CommandBuilder.SetAlias | src/CommandBuilder.ts:123-131 | the long key's alias list becomes exactly the given key or keys; other long keys' aliases and every other field are unchanged |
| CommandBuilder.SetAliasLastWins | src/CommandBuilder.ts:123-131 | a second setAlias for the same long key replaces the first; the two alias lists are not merged |
| CommandBuilder.SetCommandHandler | src/CommandBuilder.ts:133-137 | the handler becomes the given one and nothing else changes |
| CommandBuilder.SetCommandHandlerLastWins | src/CommandBuilder.ts:133-137 | of two handlers set in turn, the second is kept |
| CommandBuilder.ParserOptionsOf | src/CommandBuilder.ts:144-153 | the parser is given exactly the builder's aliases, five kind lists and defaults, with camel-case expansion off |
| Addressing.ParserText | src/CommandBuilder.ts:141-143 | the parser input is the content with one leading mention (and no space) removed, then the prefix removed at its first occurrence; text without the prefix is passed on unchanged |
| Addressing.ParserTextOfPrefixed | src/CommandBuilder.ts:141-143 | for content that has no mention but starts with the prefix, the parser (and the builder router) sees exactly the text after the prefix |
| CommandBuilder.StringArgs | src/CommandBuilder.ts:158-159 | every positional is unquoted if it is a string and then turned into text, element by element, keeping the length |
| CommandBuilder.BuilderArgs | src/CommandBuilder.ts:156-159 | args has length max(0, n-1) and keeps parser order without the first token; a string positional loses one outer quote layer; a number positional becomes its decimal text |
| CommandBuilder.BuilderArgsUnquote | src/CommandBuilder.ts:158 | a positional wrapped in any two quote characters reaches the handler as its inner text |
| CommandBuilder.BuilderFlags | src/CommandBuilder.ts:160 | flags holds every entry of the parser result except "_", with values unchanged |
| CommandBuilder.BuildInvocation | src/CommandBuilder.ts:139-160 | the handler argument carries the message and the args and flags derived from parsing the parser text with the builder's options |
| CommandBuilder.Run | src/CommandBuilder.ts:162-173 | with a handler, it is called exactly once with the invocation built from the parse, and a throw becomes exactly one reply carrying the thrown value (a normal return sends none); without one, no handler is called and the only effect is one CommandError reply with the source's message |
| Dispatch.CallCatching | src/index.ts:53-61 | the handler is invoked once; a throw yields exactly one reply, after the call, carrying the thrown value; a normal return yields no reply |
| Addressing.DefaultConfig | src/Client.ts:7-8 | the settings a client starts with: prefix "$>" and mentions honoured |
| Addressing.IsAddressed | src/Client.ts:27-30 | in both clients (also src/index.ts:38-41), a message is addressed exactly when mentions are honoured and `<@id>` or `<@!id>` starts the content, or the content starts with the prefix |
| Addressing.LeadingMention | src/Client.ts:25 | a leading mention is found exactly when `<@id>` or `<@!id>` starts the content, and the found text is one of those two tokens |
| Addressing.MentionFormsExclusive | src/Client.ts:25 | the `<@id>` and `<@!id>` forms are never both a prefix of the same content, so the `!?` choice is unambiguous |
| Addressing.StripMentionAndSpace | src/Client.ts:32-33 | content without a leading mention is unchanged; otherwise it equals the mention, then at most one space, then the result |
| Addressing.StripMentionAndSpaceOfMention | src/Client.ts:32-33 | after a mention, exactly one following space is removed when present, and a second space stays |
| Addressing.StripMention | src/index.ts:66 | content without a leading mention is unchanged; otherwise it equals the mention followed by the result |
| Addressing.StripMentionOfMention | src/index.ts:66 | removing a mention from mention+rest gives back rest unchanged, spaces included |
| JsText.IndexOf | src/Client.ts:34 | the found index is an occurrence with none before it, and no index is found when there is no occurrence |
| JsText.ReplaceFirst | src/Client.ts:34 | without an occurrence the text is unchanged; otherwise the text is the result with the pattern put back at its first occurrence |
| JsText.ReplaceFirstAtStart | src/Client.ts:34 | when the text starts with the pattern, the replace is an anchored strip |
| JsText.ReplaceFirstKeepsLaterOccurrences | src/Client.ts:34 | every later occurrence that does not overlap the first survives the replace, moved left by the pattern's length |
| JsText.ReplaceFirstNotAnchored | src/Client.ts:34 | a prefix occurring later in the text is removed from the middle |
| Addressing.RouterText | src/Client.ts:32-34 | the lookup text is the content with the mention and at most one space removed, then the first occurrence of the prefix removed |
| BuilderClient.NewClient | src/Client.ts:6-8 | a new client has no commands, prefix "$>" and mentions honoured, for the bot id it is logged in as |
| BuilderClient.AddCommand | src/Client.ts:16-20 | the name maps to the new builder; an existing name keeps its position in the order and a new one goes last; other names' builders and the settings are unchanged |
| OrderedMaps.Set | src/Client.ts:17 | Map.set: the key's value is replaced; an existing key keeps its position in the order and a new key is appended; keys stay distinct |
| OrderedMaps.Get | src/Client.ts:40 | a value is found exactly for a registered key, and it is that key's value |
| OrderedMaps.GetSet | src/Client.ts:17 | a value set under a key is the value read back under it |
| BuilderClient.FindPrefix | src/Client.ts:36-37 | the found index is a name that is a prefix of the text, and no earlier name is one; nothing is found exactly when no name is a prefix |
| BuilderClient.FindPrefixFindsFirst | src/Client.ts:36-37 | the first name in order that is a prefix is the one found |
| BuilderClient.FindPrefixFindsNone | src/Client.ts:36-37 | when no name is a prefix, nothing is found |
| BuilderClient.Selected | src/Client.ts:36-41 | a selected builder is registered under a non-empty name that is a prefix of the lookup text |
| BuilderClient.HandleMessage | src/Client.ts:22-44 | system or bot messages and unaddressed messages have no effect; at most one handler call and one reply happen; any effect comes from a non-empty registered name that is a prefix of the lookup text |
| BuilderClient.DispatchesFirstPrefix | src/Client.ts:36-43 | for an addressed user message, the first registered non-empty name that is a prefix of the lookup text has its builder run, and only that one |
| BuilderClient.NoMatchNoEffect | src/Client.ts:39-43 | when no registered name is a prefix of the lookup text, nothing runs and nothing is replied |
| BuilderClient.EmptyNameBlocksLater | src/Client.ts:36-41 | an empty name matches every text but is falsy: when no earlier name is a prefix of the lookup text, nothing runs and nothing is replied |
| BuilderClient.EmptyNameFirstBlocksAll | src/Client.ts:36-41 | a command registered first under the empty name blocks every dispatch |
| BuilderClient.EarlierPrefixWins | src/Client.ts:36-37 | with "add" registered before "addAll", text starting with "addAll" runs the "add" builder |
| FunctionClient.NewClient | src/index.ts:19-21 | a new client has no commands, prefix "$>" and mentions honoured, for the bot id it is logged in as |
| FunctionClient.AddCommand | src/index.ts:29-33 | the name maps to the new function, overwriting any earlier one; other names and the settings are unchanged |
| FunctionClient.CommandName | src/index.ts:70 | the command name is "undefined" when there is no positional, a string positional itself, or a number's decimal text |
| FunctionClient.UnquoteAll | src/index.ts:71 | every positional is unquoted if it is a string, element by element, keeping the length |
| FunctionClient.FunctionArgs | src/index.ts:71 | args has length max(0, n-1) and keeps parser order without the first token; strings lose one outer quote layer; numbers and other values pass through unconverted |
| FunctionClient.ScalarFlags | src/index.ts:72 | flags holds exactly the entries whose value is not an array, so "_" and every array-valued flag are dropped; values are unchanged |
| FunctionClient.ParseContent | src/index.ts:64-79 | the parser gets the content without mention and first prefix occurrence, and no options; name, args and flags are derived from its result |
| FunctionClient.HandleMessage | src/index.ts:35-62 | there is an effect if and only if the message is from a user, is addressed, and its parsed name is registered exactly; in that case the function is called once with the parsed args and flags, and the only other effect is one reply carrying the thrown value, exactly when it throws |
| FunctionClient.NoPositionalLooksUpUndefined | src/index.ts:49-51 | with no positional, the name looked up is "undefined"; unless that is registered, nothing runs and nothing is replied |
| Yargs.UnquoteValue | src/CommandBuilder.ts:158 | a string value loses one outer quote layer; a number, boolean or array passes through unchanged |
| JsText.Unquote | src/index.ts:71 | the text changes if and only if it is wrapped in two quote characters with no line terminator between; it then loses exactly those two characters |
| JsText.UnquoteWrap | src/CommandBuilder.ts:158 | any two quote characters, the same or different, around a line of text are removed to give the text back |
| JsText.UnquoteOneLayer | src/CommandBuilder.ts:158 | only one layer is removed: `"'a'"` becomes `'a'` |
| JsText.UnquoteKeepsMultiline | src/CommandBuilder.ts:158 | a quoted string that spans a line break is not unquoted |
| JsValues.NatToDecimal | src/CommandBuilder.ts:159 | String of a non-negative integer is a non-empty string of digits with no leading zero |
| JsValues.IntToDecimal | src/CommandBuilder.ts:159 | String of an integer starts with a minus sign exactly when the integer is negative |
| JsValues.NatDecimalRoundTrip | src/CommandBuilder.ts:159 | reading the decimal text of a natural number gives the number back |
| JsValues.IntDecimalRoundTrip | src/CommandBuilder.ts:159 | the text of an integer is a sign and digits, and reading it gives the integer back |
| JsValues.IntToDecimalInjective | src/CommandBuilder.ts:159 | different numbers never produce the same argument text |
| JsValues.JsString | src/CommandBuilder.ts:159 | String keeps a string, writes a boolean as "true" or "false", writes a number as its decimal text with a minus sign exactly when negative, writes an empty array as "" and a one-element array as its element's text |
| JsValues.JsStringOfScalar | src/CommandBuilder.ts:159 | String leaves a string as it is, writes a boolean as "true" or "false", and writes a number as text that reads back as that number |

## Left out

- `yargs-parser` is not part of this model. Its tokenizing, quote handling, number and boolean coercion, alias resolution, defaults, arrays and counts are out. The parser is a function argument, and the properties hold for any parser.
- discord.js plumbing is I/O. This covers the constructor's `this.on('message', ...)`, the `Message` and `Client` objects, `client.user`, the `{ code: 'ts' }` reply option and `console.error` logging. A message is modelled as `{content, system, bot}`. The bot id and prefix `run` reads through `message.client` are passed as an explicit `Config`.
- Asynchronous handlers are left out. Neither router awaits the returned promise, so a rejection escapes the try/catch. Handlers are modelled as synchronous calls that return or throw.
- The TypeScript overload and generic signatures are left out (src/CommandBuilder.ts:15-53 and the overload lines on each method). They have no runtime behaviour.
- The bot id is put into a regular expression without escaping. The model treats the mention pattern as literal text, which is exact for the digit-string ids Discord uses.
- Numbers are JavaScript doubles. The model uses integers. `String` of a non-integral number, of `-0` or of a number of 1e21 or more (exponent form) is not modelled.
- JsValues.IntToDecimal: matches `String` only for integers of magnitude at most 2^53. A larger double is printed as the shortest digits that read back as it, padded with zeros (`String(2**60)` is "1152921504606847000"), while the model writes every digit of the integer ("1152921504606846976"). Such numbers are left out, like those of 1e21 or more; the same holds for JsValues.JsString, CommandBuilder.StringArgs, CommandBuilder.BuilderArgs and FunctionClient.CommandName, which use it. Values are strings, integers, booleans and arrays; `null`, `undefined` (other than the "undefined" command name) and plain objects are left out.
- Objects are shared by reference in the source and copied in the model. `addCommand` stores the builder object itself (src/Client.ts:17), so configuring a builder after registering it changes the registered command; in the model, later calls on a builder produce a new value and the client keeps the one it was given. Likewise `setAlias` stores the caller's own array (src/CommandBuilder.ts:127), so later pushes to that array change the aliases; the model stores the list's value at the time of the call.
- `Config` generalises two fixed fields. In both clients `commandPrefix` and `ignoreMention` are readonly fields set to "$>" and false (src/Client.ts:7-8, src/index.ts:20-21). `NewClient` builds exactly those settings, but the routing functions and lemmas take any `Config`, which covers a subclass that redeclares the fields.
- CommandBuilder.Default and CommandBuilder.SetAlias: `_defaults` and `_aliases` are plain objects (src/CommandBuilder.ts:56-57), and the model treats them as maps. Assigning under the key "__proto__" (src/CommandBuilder.ts:68, 125, 127) runs the inherited prototype setter and adds no entry, so the source's `default("__proto__", v)` leaves the defaults unchanged and `setAlias("__proto__", ...)` passes no such alias to the parser; the model stores an entry under "__proto__" like under any other key.
- Nothing checks what is thrown. The error object that goes into a reply is modelled as its payload, and the text discord.js renders from it is not modelled.
- CommandBuilder.BuilderArgs: for string and number positionals its contract gives the element directly. Booleans and arrays are covered only through `StringArgs`, because the parser puts only strings and numbers in `"_"`.
