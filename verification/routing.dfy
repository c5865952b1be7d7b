/**
 The boundary to `yargs-parser`. The parser itself is not part of this model:
 every operation that parses takes it as a function argument, and everything
 proved holds for whatever that function returns.
 */
module Yargs {
  import opened JsValues
  import opened JsText

  /**
   The object the parser returns: named flag values plus the key "_", which
   always holds the array of positional tokens.
   */
  type Argv = m: map<string, Value> | "_" in m && m["_"].Arr? witness map["_" := Arr([])]

  /** `result['_']`. */
  function Positional(a: Argv): seq<Value> {
    a["_"].items
  }

  /**
   The second argument of the parser call: either omitted, or an options
   object listing aliases, typed keys, defaults and the camel-case setting.
   */
  datatype ParserOptions =
    | NoOptions
    | Options(
        alias: map<string, seq<string>>,
        arrayKeys: seq<string>,
        booleanKeys: seq<string>,
        numberKeys: seq<string>,
        stringKeys: seq<string>,
        countKeys: seq<string>,
        defaults: map<string, Value>,
        camelCaseExpansion: bool)

  /** The parser: raw command text and options in, parsed object out. */
  type Parser = (string, ParserOptions) -> Argv

  /**
   `typeof value === 'string' ? value.replace(/^['"](.*)['"]$/, '$1') : value`,
   the step both routers apply to each positional: strings lose one outer
   quote layer, every other value passes through.
   */
  function UnquoteValue(v: Value): (r: Value)
    ensures v.Str? ==> r == Str(Unquote(v.s))
    ensures !v.Str? ==> r == v
  {
    match v
    case Str(s) => Str(Unquote(s))
    case _ => v
  }
}

/**
 Who a message is addressed to: the mention pattern `^<@!?id>` built from the
 bot's own id, the configured command prefix, and the two strips applied to
 the content before it is looked up or parsed.
 */
module Addressing {
  import opened Wrappers
  import opened JsText

  /** The client settings the routers read: the bot's own id, the prefix and the mention switch. */
  datatype Config = Config(botId: string, commandPrefix: string, ignoreMention: bool)

  /** The settings a client starts with: prefix "$>", mentions honoured. */
  function DefaultConfig(botId: string): (c: Config)
    ensures c.botId == botId && c.commandPrefix == "$>" && !c.ignoreMention
  {
    Config(botId, "$>", false)
  }

  /** The parts of an incoming message that the routers look at. */
  datatype Message = Message(content: string, system: bool, bot: bool)

  /** `<@id>` (or `<@!id>` when `bang`), the text a mention of the bot starts with. */
  function MentionToken(id: string, bang: bool): string {
    "<@" + (if bang then "!" else "") + id + ">"
  }

  /** The number of '!' characters an id starts with. */
  function LeadingBangs(s: string): (m: nat)
    ensures m <= |s|
    ensures forall i :: 0 <= i < m ==> s[i] == '!'
    ensures m < |s| ==> s[m] != '!'
  {
    if |s| == 0 || s[0] != '!' then 0 else 1 + LeadingBangs(s[1..])
  }

  /** The two mention forms are never both a prefix of the same text. */
  lemma MentionFormsExclusive(id: string, content: string)
    ensures !(MentionToken(id, true) <= content && MentionToken(id, false) <= content)
  {
    // Both forms start "<@" and then run through '!' characters; the `!` form has
    // one more of them, so the two differ right after the plain form's run.
    var t := MentionToken(id, true);
    var f := MentionToken(id, false);
    var m := LeadingBangs(id);
    assert t[2 + m] == '!' by {
      if m > 0 {
        assert t[2 + m] == id[m - 1];
      }
    }
    assert f[2 + m] != '!' by {
      if m < |id| {
        assert f[2 + m] == id[m];
      } else {
        assert f[2 + m] == '>';
      }
    }
  }

  /**
   The text matched by `^<@!?id>` at the start of `content`, if any. The regular
   expression tries the `!` form first, but at most one form can match.
   */
  function LeadingMention(content: string, id: string): (r: Option<string>)
    ensures r.Some? <==> (MentionToken(id, true) <= content || MentionToken(id, false) <= content)
    ensures r.Some? ==> r.value <= content
    ensures r.Some? ==> r.value == MentionToken(id, true) || r.value == MentionToken(id, false)
  {
    if MentionToken(id, true) <= content then Some(MentionToken(id, true))
    else if MentionToken(id, false) <= content then Some(MentionToken(id, false))
    else None
  }

  /**
   The addressing predicate of both routers: a leading mention of the bot (unless
   mentions are ignored) or the content starting with the command prefix.
   */
  predicate IsAddressed(config: Config, content: string): (r: bool)
    ensures r <==>
      || (!config.ignoreMention && MentionToken(config.botId, false) <= content)
      || (!config.ignoreMention && MentionToken(config.botId, true) <= content)
      || config.commandPrefix <= content
  {
    || (!config.ignoreMention && LeadingMention(content, config.botId).Some?)
    || config.commandPrefix <= content
  }

  /** `content.replace(/^<@!?id>/, '')`: the leading mention removed, nothing after it. */
  function StripMention(content: string, id: string): (r: string)
    ensures LeadingMention(content, id).None? ==> r == content
    ensures LeadingMention(content, id).Some? ==> content == LeadingMention(content, id).value + r
  {
    match LeadingMention(content, id)
    case None => content
    case Some(m) => content[|m|..]
  }

  /**
   `content.replace(/^<@!?id> ?/, '')`: the leading mention removed together with
   one space directly after it, if there is one.
   */
  function StripMentionAndSpace(content: string, id: string): (r: string)
    ensures LeadingMention(content, id).None? ==> r == content
    ensures LeadingMention(content, id).Some? ==>
      var m := LeadingMention(content, id).value;
      content == m + r || content == m + " " + r
  {
    match LeadingMention(content, id)
    case None => content
    case Some(m) =>
      var rest := content[|m|..];
      assert content == m + rest;
      if |rest| > 0 && rest[0] == ' ' then
        assert rest == " " + rest[1..];
        rest[1..]
      else rest
  }

  /** Stripping a mention from text that starts with one gives back the rest, untouched. */
  lemma StripMentionOfMention(id: string, bang: bool, rest: string)
    ensures StripMention(MentionToken(id, bang) + rest, id) == rest
  {
    var content := MentionToken(id, bang) + rest;
    MentionFormsExclusive(id, content);
    assert MentionToken(id, bang) <= content;
  }

  /** The router's strip eats at most one space after the mention: a second one stays. */
  lemma StripMentionAndSpaceOfMention(id: string, bang: bool, rest: string)
    ensures StripMentionAndSpace(MentionToken(id, bang) + rest, id) ==
      if |rest| > 0 && rest[0] == ' ' then rest[1..] else rest
  {
    var content := MentionToken(id, bang) + rest;
    MentionFormsExclusive(id, content);
    assert MentionToken(id, bang) <= content;
    assert content[|MentionToken(id, bang)|..] == rest;
  }

  /**
   The text handed to the parser by `CommandBuilder.run` and by the function
   client: one leading mention removed (no space), then the first occurrence of
   the prefix, wherever it is.
   */
  function ParserText(config: Config, content: string): (r: string)
    ensures var s := StripMention(content, config.botId);
      && (IndexOf(s, config.commandPrefix).None? ==> r == s)
      && (IndexOf(s, config.commandPrefix).Some? ==>
            var i := IndexOf(s, config.commandPrefix).value;
            i <= |r| && s == r[..i] + config.commandPrefix + r[i..])
  {
    ReplaceFirst(StripMention(content, config.botId), config.commandPrefix)
  }

  /**
   The text the builder client looks command names up in: one leading mention
   and at most one following space removed, then the first occurrence of the prefix.
   */
  function RouterText(config: Config, content: string): (r: string)
    ensures var s := StripMentionAndSpace(content, config.botId);
      && (IndexOf(s, config.commandPrefix).None? ==> r == s)
      && (IndexOf(s, config.commandPrefix).Some? ==>
            var i := IndexOf(s, config.commandPrefix).value;
            i <= |r| && s == r[..i] + config.commandPrefix + r[i..])
  {
    ReplaceFirst(StripMentionAndSpace(content, config.botId), config.commandPrefix)
  }

  /** Prefixed content without a mention loses exactly the leading prefix on its way to the parser. */
  lemma ParserTextOfPrefixed(config: Config, content: string)
    requires LeadingMention(content, config.botId).None?
    requires config.commandPrefix <= content
    ensures ParserText(config, content) == content[|config.commandPrefix|..]
    ensures RouterText(config, content) == content[|config.commandPrefix|..]
  {
    ReplaceFirstAtStart(content, config.commandPrefix);
  }
}

/**
 What a dispatch does that can be observed: handlers invoked and replies sent.
 A handler is an opaque value; what happens when it is called is an argument
 (`call`) of the operations that dispatch.
 */
module Dispatch {

  /** How a synchronous handler call ends: it returns, or it throws a value. */
  datatype Completion = Returned | Threw(payload: string)

  /** What a reply carries: the builder's own `CommandError`, or whatever a handler threw. */
  datatype Failure = CommandError(message: string) | Thrown(payload: string)

  /** One observable step of handling a message. */
  datatype Effect<H, I> = Invoked(handler: H, input: I) | Replied(failure: Failure)

  /** How many handler calls a trace holds. */
  function Invocations<H, I>(effects: seq<Effect<H, I>>): nat {
    if |effects| == 0 then 0
    else (if effects[0].Invoked? then 1 else 0) + Invocations(effects[1..])
  }

  /** How many replies a trace holds. */
  function Replies<H, I>(effects: seq<Effect<H, I>>): nat {
    if |effects| == 0 then 0
    else (if effects[0].Replied? then 1 else 0) + Replies(effects[1..])
  }

  /**
   `try { handler(input) } catch (error) { message.reply(error) }`: the handler is
   called once; a throw becomes exactly one reply carrying the thrown value,
   a normal return sends nothing.
   */
  function CallCatching<H, I>(handler: H, input: I, outcome: Completion): (r: seq<Effect<H, I>>)
    ensures Invocations(r) == 1
    ensures r[0] == Invoked(handler, input)
    ensures Replies(r) == (if outcome.Threw? then 1 else 0)
    ensures outcome.Threw? ==> Replied(Thrown(outcome.payload)) in r
    ensures r == [Invoked(handler, input)] + (if outcome.Threw? then [Replied(Thrown(outcome.payload))] else [])
  {
    var tail: seq<Effect<H, I>> := if outcome.Threw? then [Replied(Thrown(outcome.payload))] else [];
    assert Invocations(tail) == 0 && Replies(tail) == (if outcome.Threw? then 1 else 0) by {
      if outcome.Threw? {
        assert tail[1..] == [];
      }
    }
    var r := [Invoked(handler, input)] + tail;
    assert r[1..] == tail;
    r
  }
}
