/**
 The builder-based client: commands are `CommandBuilder`s registered by name
 in insertion order; an addressed message runs the first registered command
 whose name is a prefix of the stripped content.
 */
module BuilderClient {
  import opened Wrappers
  import opened Yargs
  import opened Addressing
  import opened Dispatch
  import opened OrderedMaps
  import opened CommandBuilder

  datatype Client<H> = Client(config: Config, commands: OrderedMap<Builder<H>>)

  /** `new Client()` once logged in as `botId`: prefix "$>", mentions honoured, no commands. */
  function NewClient<H>(botId: string): (c: Client<H>)
    ensures c.config.botId == botId && c.config.commandPrefix == "$>" && !c.config.ignoreMention
    ensures |c.commands.keys| == 0
  {
    Client(DefaultConfig(botId), Empty())
  }

  /**
   `addCommand(name, builder)`: the name now maps to the builder; a name that was
   already registered keeps its place in the order, a new one goes last.
   */
  function AddCommand<H>(c: Client<H>, name: string, builder: Builder<H>): (r: Client<H>)
    ensures r.config == c.config
    ensures Get(r.commands, name) == Some(builder)
    ensures forall other :: other != name ==> Get(r.commands, other) == Get(c.commands, other)
    ensures name in c.commands.keys ==> r.commands.keys == c.commands.keys
    ensures name !in c.commands.keys ==> r.commands.keys == c.commands.keys + [name]
  {
    Client(c.config, Set(c.commands, name, builder))
  }

  /** `names.find(name => text.startsWith(name))`: the index of the first name that is a prefix. */
  function FindPrefix(names: seq<string>, text: string): (r: Option<nat>)
    ensures r.Some? ==> r.value < |names| && names[r.value] <= text
    ensures r.Some? ==> forall j :: 0 <= j < r.value ==> !(names[j] <= text)
    ensures r.None? ==> forall j :: 0 <= j < |names| ==> !(names[j] <= text)
  {
    if |names| == 0 then None
    else if names[0] <= text then Some(0)
    else match FindPrefix(names[1..], text)
      case None => None
      case Some(i) => Some(i + 1)
  }

  /**
   The builder `_handleMessage` runs for some content, if any: the first name in
   insertion order that is a prefix of the stripped text. A found name that is
   the empty string is falsy, so it selects nothing.
   */
  function Selected<H>(c: Client<H>, content: string): (r: Option<Builder<H>>)
    ensures r.Some? ==>
      exists i :: 0 <= i < |c.commands.keys| && c.commands.keys[i] != ""
        && c.commands.keys[i] <= RouterText(c.config, content)
        && r.value == c.commands.values[c.commands.keys[i]]
  {
    match FindPrefix(c.commands.keys, RouterText(c.config, content))
    case None => None
    case Some(i) =>
      var name := c.commands.keys[i];
      if name == "" then None else Some(c.commands.values[name])
  }

  /**
   `_handleMessage(message)`: system and bot messages and unaddressed content
   do nothing; otherwise the selected builder, if any, runs once.
   */
  function HandleMessage<H>(c: Client<H>, message: Message, parse: Parser,
                            call: (H, Invocation) -> Completion): (effects: seq<Effect<H, Invocation>>)
    ensures message.system || message.bot ==> effects == []
    ensures !IsAddressed(c.config, message.content) ==> effects == []
    ensures Invocations(effects) <= 1 && Replies(effects) <= 1
    ensures effects != [] ==>
      exists name :: name in c.commands.keys && name != "" && name <= RouterText(c.config, message.content)
  {
    if message.system || message.bot then []
    else if !IsAddressed(c.config, message.content) then []
    else match Selected(c, message.content)
      case None => []
      case Some(b) => Run(b, c.config, message, parse, call)
  }

  /** A name that is a prefix and follows no other prefix is the one `FindPrefix` finds. */
  lemma {:induction false} FindPrefixFindsFirst(names: seq<string>, text: string, i: nat)
    requires i < |names| && names[i] <= text
    requires forall j :: 0 <= j < i ==> !(names[j] <= text)
    ensures FindPrefix(names, text) == Some(i)
  {
    if i > 0 {
      FindPrefixFindsFirst(names[1..], text, i - 1);
    }
  }

  /** When no name is a prefix, `FindPrefix` finds nothing. */
  lemma {:induction false} FindPrefixFindsNone(names: seq<string>, text: string)
    requires forall j :: 0 <= j < |names| ==> !(names[j] <= text)
    ensures FindPrefix(names, text).None?
  {
    if |names| > 0 {
      FindPrefixFindsNone(names[1..], text);
    }
  }

  /**
   The command that runs is the first registered name, in insertion order, that
   is a prefix of the stripped text: no word boundary is needed after it.
   */
  lemma DispatchesFirstPrefix<H>(c: Client<H>, message: Message, parse: Parser,
                                 call: (H, Invocation) -> Completion, i: nat)
    requires !message.system && !message.bot && IsAddressed(c.config, message.content)
    requires i < |c.commands.keys| && c.commands.keys[i] != ""
    requires c.commands.keys[i] <= RouterText(c.config, message.content)
    requires forall j :: 0 <= j < i ==> !(c.commands.keys[j] <= RouterText(c.config, message.content))
    ensures HandleMessage(c, message, parse, call)
         == Run(c.commands.values[c.commands.keys[i]], c.config, message, parse, call)
  {
    FindPrefixFindsFirst(c.commands.keys, RouterText(c.config, message.content), i);
  }

  /** When no registered name is a prefix of the stripped text, nothing runs and nothing is replied. */
  lemma NoMatchNoEffect<H>(c: Client<H>, message: Message, parse: Parser,
                           call: (H, Invocation) -> Completion)
    requires forall j :: 0 <= j < |c.commands.keys| ==> !(c.commands.keys[j] <= RouterText(c.config, message.content))
    ensures HandleMessage(c, message, parse, call) == []
  {
    FindPrefixFindsNone(c.commands.keys, RouterText(c.config, message.content));
  }

  /**
   The empty name matches every text, but it is falsy: once the search reaches
   it, nothing runs, so it blocks every text no earlier name is a prefix of.
   */
  lemma EmptyNameBlocksLater<H>(c: Client<H>, message: Message, parse: Parser,
                                call: (H, Invocation) -> Completion, i: nat)
    requires i < |c.commands.keys| && c.commands.keys[i] == ""
    requires forall j :: 0 <= j < i ==> !(c.commands.keys[j] <= RouterText(c.config, message.content))
    ensures HandleMessage(c, message, parse, call) == []
  {
    FindPrefixFindsFirst(c.commands.keys, RouterText(c.config, message.content), i);
  }

  /** Registered first, the empty name blocks every dispatch. */
  lemma EmptyNameFirstBlocksAll<H>(c: Client<H>, message: Message, parse: Parser,
                                   call: (H, Invocation) -> Completion)
    requires |c.commands.keys| > 0 && c.commands.keys[0] == ""
    ensures HandleMessage(c, message, parse, call) == []
  {
    EmptyNameBlocksLater(c, message, parse, call, 0);
  }

  /** With "add" registered before "addAll", text that starts with "addAll" runs "add". */
  lemma EarlierPrefixWins<H>(c: Client<H>, message: Message, parse: Parser,
                             call: (H, Invocation) -> Completion)
    requires !message.system && !message.bot && IsAddressed(c.config, message.content)
    requires |c.commands.keys| >= 2 && c.commands.keys[0] == "add" && c.commands.keys[1] == "addAll"
    requires "addAll" <= RouterText(c.config, message.content)
    ensures HandleMessage(c, message, parse, call) == Run(c.commands.values["add"], c.config, message, parse, call)
  {
    assert "add" <= "addAll";
    DispatchesFirstPrefix(c, message, parse, call, 0);
  }
}

/**
 The function-based client: commands are plain functions registered by name;
 an addressed message is parsed first and the first positional names the
 command, looked up exactly.
 */
module FunctionClient {
  import opened Wrappers
  import opened JsValues
  import opened JsText
  import opened Yargs
  import opened Addressing
  import opened Dispatch
  import opened OrderedMaps

  /** What a command function receives. */
  datatype Command = Command(args: seq<Value>, flags: map<string, Value>, message: Message)

  /** What `_parseContent` returns. */
  datatype Argument = Argument(commandName: string, args: seq<Value>, flags: map<string, Value>)

  datatype Client<F> = Client(config: Config, commands: OrderedMap<F>)

  /** `new Client()` once logged in as `botId`: prefix "$>", mentions honoured, no commands. */
  function NewClient<F>(botId: string): (c: Client<F>)
    ensures c.config.botId == botId && c.config.commandPrefix == "$>" && !c.config.ignoreMention
    ensures |c.commands.keys| == 0
  {
    Client(DefaultConfig(botId), Empty())
  }

  /** `addCommand(name, fnc)`: the name now maps to `fnc`, replacing any earlier function. */
  function AddCommand<F>(c: Client<F>, name: string, fnc: F): (r: Client<F>)
    ensures r.config == c.config
    ensures Get(r.commands, name) == Some(fnc)
    ensures forall other :: other != name ==> Get(r.commands, other) == Get(c.commands, other)
  {
    Client(c.config, Set(c.commands, name, fnc))
  }

  /** `String(result['_'][0])`: the first positional as text, or "undefined" when there is none. */
  function CommandName(positional: seq<Value>): (r: string)
    ensures |positional| == 0 ==> r == "undefined"
    ensures |positional| > 0 && positional[0].Str? ==> r == positional[0].s
    ensures |positional| > 0 && positional[0].Num? ==> r == IntToDecimal(positional[0].n)
  {
    if |positional| == 0 then "undefined" else JsString(positional[0])
  }

  /** `.map(unquote)` over a list of positionals: strings lose one quote layer, numbers stay numbers. */
  function UnquoteAll(ps: seq<Value>): (r: seq<Value>)
    ensures |r| == |ps|
    ensures forall i :: 0 <= i < |ps| ==> r[i] == UnquoteValue(ps[i])
  {
    if |ps| == 0 then [] else [UnquoteValue(ps[0])] + UnquoteAll(ps[1..])
  }

  /**
   The `args` a command function receives: the positionals after the first, in
   order; strings lose one outer quote layer and every other value is kept as it is.
   */
  function FunctionArgs(positional: seq<Value>): (r: seq<Value>)
    ensures |r| == if |positional| == 0 then 0 else |positional| - 1
    ensures forall i :: 0 <= i < |r| && positional[i + 1].Str? ==> r[i] == Str(Unquote(positional[i + 1].s))
    ensures forall i :: 0 <= i < |r| && !positional[i + 1].Str? ==> r[i] == positional[i + 1]
  {
    if |positional| == 0 then [] else UnquoteAll(positional[1..])
  }

  /**
   The `flags` a command function receives: the entries of the parser's result
   whose value is not an array; "_" and every array-valued flag are dropped.
   */
  function ScalarFlags(result: Argv): (r: map<string, Value>)
    ensures "_" !in r
    ensures forall k :: k in r <==> k in result && !result[k].Arr?
    ensures forall k :: k in r ==> r[k] == result[k]
  {
    map k | k in result && !result[k].Arr? :: result[k]
  }

  /** `_parseContent(content)`: parse the stripped content (no options) and split the result. */
  function ParseContent(config: Config, content: string, parse: Parser): (a: Argument)
    ensures var result := parse(ParserText(config, content), NoOptions);
      && a.commandName == CommandName(Positional(result))
      && a.args == FunctionArgs(Positional(result))
      && a.flags == ScalarFlags(result)
  {
    var result := parse(ParserText(config, content), NoOptions);
    Argument(CommandName(Positional(result)), FunctionArgs(Positional(result)), ScalarFlags(result))
  }

  /**
   `_handleMessage(message)`: system and bot messages and unaddressed content do
   nothing; otherwise the command registered under exactly the parsed name is
   called once, and a throw from it becomes one reply.
   */
  function HandleMessage<F>(c: Client<F>, message: Message, parse: Parser,
                            call: (F, Command) -> Completion): (effects: seq<Effect<F, Command>>)
    ensures message.system || message.bot ==> effects == []
    ensures !IsAddressed(c.config, message.content) ==> effects == []
    ensures effects != [] <==>
      && !message.system && !message.bot && IsAddressed(c.config, message.content)
      && ParseContent(c.config, message.content, parse).commandName in c.commands.keys
    ensures effects != [] ==>
      var a := ParseContent(c.config, message.content, parse);
      var f := c.commands.values[a.commandName];
      var cmd := Command(a.args, a.flags, message);
      && Invocations(effects) == 1
      && effects[0] == Invoked(f, cmd)
      && Replies(effects) == (if call(f, cmd).Threw? then 1 else 0)
      && (call(f, cmd).Threw? ==> Replied(Thrown(call(f, cmd).payload)) in effects)
      && effects == [Invoked(f, cmd)] + (if call(f, cmd).Threw? then [Replied(Thrown(call(f, cmd).payload))] else [])
  {
    if message.system || message.bot then []
    else if !IsAddressed(c.config, message.content) then []
    else
      var a := ParseContent(c.config, message.content, parse);
      match Get(c.commands, a.commandName)
      case None => []
      case Some(f) =>
        var cmd := Command(a.args, a.flags, message);
        CallCatching(f, cmd, call(f, cmd))
  }

  /** A message whose parse has no positional can only reach a command registered as "undefined". */
  lemma NoPositionalLooksUpUndefined<F>(c: Client<F>, message: Message, parse: Parser,
                                        call: (F, Command) -> Completion)
    requires |Positional(parse(ParserText(c.config, message.content), NoOptions))| == 0
    requires "undefined" !in c.commands.keys
    ensures HandleMessage(c, message, parse, call) == []
  {
  }
}
