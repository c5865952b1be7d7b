/**
 The command schema builder. A builder accumulates what the argument parser
 is told about one command (defaults, aliases and five lists of typed keys)
 plus an optional handler. Every configuration call is one update of that
 record; `Run` parses a message with it and dispatches to the handler.
 */
module CommandBuilder {
  import opened Wrappers
  import opened JsValues
  import opened JsText
  import opened Yargs
  import opened Addressing
  import opened Dispatch

  /** The text of the `CommandError` a builder without a handler replies with. */
  const MissingHandlerMessage: string := "Use the \"setCommandHandler\" method to set the handler."

  /** The accumulated configuration of one command; `H` is the type of handlers. */
  datatype Builder<H> = Builder(
    aliases: map<string, seq<string>>,
    defaults: map<string, Value>,
    numbers: seq<string>,
    strings: seq<string>,
    booleans: seq<string>,
    arrays: seq<string>,
    counts: seq<string>,
    handler: Option<H>)

  /** The key argument of `toArray`, `toCount` and `setAlias`: one name or a list of them. */
  datatype Keys = One(key: string) | Many(keys: seq<string>)

  function KeyList(keys: Keys): seq<string> {
    match keys
    case One(k) => [k]
    case Many(ks) => ks
  }

  /** The typed lists a key can be declared in. */
  datatype Kind = NumberKind | StringKind | BooleanKind | ArrayKind | CountKind

  /** The key has been declared in the list of this kind; a key may be in several at once. */
  predicate HasKind<H>(b: Builder<H>, key: string, kind: Kind) {
    match kind
    case NumberKind => key in b.numbers
    case StringKind => key in b.strings
    case BooleanKind => key in b.booleans
    case ArrayKind => key in b.arrays
    case CountKind => key in b.counts
  }

  /** `new CommandBuilder()`: nothing declared, no handler. */
  function NewBuilder<H>(): (b: Builder<H>)
    ensures b.handler.None? && b.aliases == map[] && b.defaults == map[]
    ensures forall key, kind :: !HasKind(b, key, kind)
  {
    Builder(map[], map[], [], [], [], [], [], None)
  }

  /** `default(key, value)`: the key's default becomes `value`, whatever it was before. */
  function Default<H>(b: Builder<H>, key: string, value: Value): (r: Builder<H>)
    ensures key in r.defaults && r.defaults[key] == value
    ensures forall k :: k != key ==> (k in r.defaults <==> k in b.defaults)
    ensures forall k :: k != key && k in b.defaults ==> r.defaults[k] == b.defaults[k]
    ensures r.(defaults := b.defaults) == b
  {
    b.(defaults := b.defaults[key := value])
  }

  /** `toNumber(key)`: the key is pushed onto the number list only; duplicates stay. */
  function ToNumber<H>(b: Builder<H>, key: string): (r: Builder<H>)
    ensures |r.numbers| == |b.numbers| + 1
    ensures r.numbers[..|b.numbers|] == b.numbers && r.numbers[|b.numbers|..] == [key]
    ensures multiset(r.numbers)[key] == multiset(b.numbers)[key] + 1
    ensures forall k, kind :: HasKind(r, k, kind) <==> HasKind(b, k, kind) || (k == key && kind == NumberKind)
    ensures r.(numbers := b.numbers) == b
  {
    b.(numbers := b.numbers + [key])
  }

  /** `toBoolean(key)`: the key is pushed onto the boolean list only; duplicates stay. */
  function ToBoolean<H>(b: Builder<H>, key: string): (r: Builder<H>)
    ensures |r.booleans| == |b.booleans| + 1
    ensures r.booleans[..|b.booleans|] == b.booleans && r.booleans[|b.booleans|..] == [key]
    ensures multiset(r.booleans)[key] == multiset(b.booleans)[key] + 1
    ensures forall k, kind :: HasKind(r, k, kind) <==> HasKind(b, k, kind) || (k == key && kind == BooleanKind)
    ensures r.(booleans := b.booleans) == b
  {
    b.(booleans := b.booleans + [key])
  }

  /** `toString(key)`: the key is pushed onto the string list only; duplicates stay. */
  function ToString<H>(b: Builder<H>, key: string): (r: Builder<H>)
    ensures |r.strings| == |b.strings| + 1
    ensures r.strings[..|b.strings|] == b.strings && r.strings[|b.strings|..] == [key]
    ensures multiset(r.strings)[key] == multiset(b.strings)[key] + 1
    ensures forall k, kind :: HasKind(r, k, kind) <==> HasKind(b, k, kind) || (k == key && kind == StringKind)
    ensures r.(strings := b.strings) == b
  {
    b.(strings := b.strings + [key])
  }

  /** `keys.forEach(key => list.push(key))`: one push per key, in order. */
  function PushEach(list: seq<string>, keys: seq<string>): (r: seq<string>)
    ensures |r| == |list| + |keys|
    ensures r[..|list|] == list
    ensures forall i :: 0 <= i < |keys| ==> r[|list| + i] == keys[i]
    decreases |keys|
  {
    if |keys| == 0 then list else PushEach(list + [keys[0]], keys[1..])
  }

  /** Pushing the keys one by one appends the whole list. */
  lemma PushEachAppends(list: seq<string>, keys: seq<string>)
    ensures PushEach(list, keys) == list + keys
  {
    var r := PushEach(list, keys);
    assert forall i :: 0 <= i < |r| ==> r[i] == (list + keys)[i] by {
      forall i | 0 <= i < |r|
        ensures r[i] == (list + keys)[i]
      {
        if i < |list| {
          assert r[..|list|][i] == r[i];
        } else {
          assert r[|list| + (i - |list|)] == keys[i - |list|];
        }
      }
    }
  }

  /** The `typeof keys === 'string'` branch of `toArray` and `toCount`. */
  function PushKeys(list: seq<string>, keys: Keys): (r: seq<string>)
    ensures r == list + KeyList(keys)
  {
    match keys
    case One(k) => list + [k]
    case Many(ks) => PushEachAppends(list, ks); PushEach(list, ks)
  }

  /** `toArray(keys)`: the array list grows by exactly the keys given, in order; nothing else changes. */
  function ToArray<H>(b: Builder<H>, keys: Keys): (r: Builder<H>)
    ensures |r.arrays| == |b.arrays| + |KeyList(keys)|
    ensures r.arrays[..|b.arrays|] == b.arrays && r.arrays[|b.arrays|..] == KeyList(keys)
    ensures forall k, kind :: HasKind(r, k, kind) <==> HasKind(b, k, kind) || (k in KeyList(keys) && kind == ArrayKind)
    ensures r.(arrays := b.arrays) == b
  {
    b.(arrays := PushKeys(b.arrays, keys))
  }

  /** `toCount(keys)`: the count list grows by exactly the keys given, in order; nothing else changes. */
  function ToCount<H>(b: Builder<H>, keys: Keys): (r: Builder<H>)
    ensures |r.counts| == |b.counts| + |KeyList(keys)|
    ensures r.counts[..|b.counts|] == b.counts && r.counts[|b.counts|..] == KeyList(keys)
    ensures forall k, kind :: HasKind(r, k, kind) <==> HasKind(b, k, kind) || (k in KeyList(keys) && kind == CountKind)
    ensures r.(counts := b.counts) == b
  {
    b.(counts := PushKeys(b.counts, keys))
  }

  /**
   `setAlias(longKey, shortKeys)`: the alias list of `longKey` becomes exactly
   the keys given; earlier aliases of it are dropped, not merged.
   */
  function SetAlias<H>(b: Builder<H>, longKey: string, shortKeys: Keys): (r: Builder<H>)
    ensures longKey in r.aliases && r.aliases[longKey] == KeyList(shortKeys)
    ensures forall k :: k != longKey ==> (k in r.aliases <==> k in b.aliases)
    ensures forall k :: k != longKey && k in b.aliases ==> r.aliases[k] == b.aliases[k]
    ensures r.(aliases := b.aliases) == b
  {
    b.(aliases := b.aliases[longKey := KeyList(shortKeys)])
  }

  /** `setCommandHandler(fnc)`: the handler becomes `fnc`, replacing any earlier one. */
  function SetCommandHandler<H>(b: Builder<H>, fnc: H): (r: Builder<H>)
    ensures r.handler == Some(fnc)
    ensures r.(handler := b.handler) == b
  {
    b.(handler := Some(fnc))
  }

  /** A second default for the same key wins outright. */
  lemma DefaultLastWins<H>(b: Builder<H>, key: string, v1: Value, v2: Value)
    ensures Default(Default(b, key, v1), key, v2) == Default(b, key, v2)
  {
  }

  /** A second `setAlias` for the same long key replaces the first: aliases never merge. */
  lemma SetAliasLastWins<H>(b: Builder<H>, longKey: string, first: Keys, second: Keys)
    ensures SetAlias(SetAlias(b, longKey, first), longKey, second) == SetAlias(b, longKey, second)
  {
  }

  /** The last handler set is the one kept. */
  lemma SetCommandHandlerLastWins<H>(b: Builder<H>, f1: H, f2: H)
    ensures SetCommandHandler(SetCommandHandler(b, f1), f2) == SetCommandHandler(b, f2)
  {
  }

  /** Declaring a key twice keeps both entries: `toNumber` is not idempotent. */
  lemma ToNumberKeepsDuplicates<H>(b: Builder<H>, key: string)
    ensures |ToNumber(ToNumber(b, key), key).numbers| == |b.numbers| + 2
    ensures ToNumber(ToNumber(b, key), key) != ToNumber(b, key)
  {
  }

  /** A later declaration of another kind does not remove the earlier one: both kinds stay. */
  lemma NoLastKindWins<H>(b: Builder<H>, key: string)
    ensures var r := ToBoolean(ToNumber(b, key), key);
      HasKind(r, key, NumberKind) && HasKind(r, key, BooleanKind)
  {
  }

  /** One single-key `toArray` call per key, in order. */
  function RepeatToArray<H>(b: Builder<H>, keys: seq<string>): Builder<H>
    decreases |keys|
  {
    if |keys| == 0 then b else RepeatToArray(ToArray(b, One(keys[0])), keys[1..])
  }

  /** Single-key `toArray` calls, one per key, append the keys in order and change nothing else. */
  lemma {:induction false} RepeatToArrayAppends<H>(b: Builder<H>, keys: seq<string>)
    ensures RepeatToArray(b, keys) == b.(arrays := b.arrays + keys)
    decreases |keys|
  {
    if |keys| > 0 {
      var b1 := b.(arrays := b.arrays + [keys[0]]);
      assert ToArray(b, One(keys[0])) == b1;
      RepeatToArrayAppends(b1, keys[1..]);
      assert b1.arrays + keys[1..] == b.arrays + keys;
    }
  }

  /** `toArray` with a list is the same as one single-key `toArray` per key, in order. */
  lemma ToArrayManyIsRepeatedOne<H>(b: Builder<H>, keys: seq<string>)
    ensures ToArray(b, Many(keys)) == RepeatToArray(b, keys)
  {
    RepeatToArrayAppends(b, keys);
    assert PushKeys(b.arrays, Many(keys)) == b.arrays + keys;
  }

  /** The options object a builder hands to the parser, with camel-case expansion switched off. */
  function ParserOptionsOf<H>(b: Builder<H>): (o: ParserOptions)
    ensures o.Options? && !o.camelCaseExpansion
    ensures o.alias == b.aliases && o.defaults == b.defaults
    ensures o.arrayKeys == b.arrays && o.booleanKeys == b.booleans && o.numberKeys == b.numbers
    ensures o.stringKeys == b.strings && o.countKeys == b.counts
  {
    Options(b.aliases, b.arrays, b.booleans, b.numbers, b.strings, b.counts, b.defaults, false)
  }

  /** `.map(unquote).map(String)` over a list of positionals. */
  function StringArgs(ps: seq<Value>): (r: seq<string>)
    ensures |r| == |ps|
    ensures forall i :: 0 <= i < |ps| ==> r[i] == JsString(UnquoteValue(ps[i]))
  {
    if |ps| == 0 then [] else [JsString(UnquoteValue(ps[0]))] + StringArgs(ps[1..])
  }

  /**
   The `args` a handler receives: the positionals after the first, in order,
   each string losing one outer quote layer and every element turned into text.
   */
  function BuilderArgs(positional: seq<Value>): (r: seq<string>)
    ensures |r| == if |positional| == 0 then 0 else |positional| - 1
    ensures forall i :: 0 <= i < |r| && positional[i + 1].Str? ==> r[i] == Unquote(positional[i + 1].s)
    ensures forall i :: 0 <= i < |r| && positional[i + 1].Num? ==>
      r[i] == IntToDecimal(positional[i + 1].n)
  {
    if |positional| == 0 then [] else StringArgs(positional[1..])
  }

  /** A token the parser returns wrapped in quotes reaches the handler without them. */
  lemma BuilderArgsUnquote(positional: seq<Value>, i: nat, open: char, inner: string, close: char)
    requires i + 1 < |positional|
    requires positional[i + 1] == Str([open] + inner + [close])
    requires IsQuote(open) && IsQuote(close)
    requires forall j :: 0 <= j < |inner| ==> !IsLineTerminator(inner[j])
    ensures BuilderArgs(positional)[i] == inner
  {
    UnquoteWrap(open, inner, close);
  }

  /** The `flags` a handler receives: every entry of the parser's result except "_", values unchanged. */
  function BuilderFlags(result: Argv): (r: map<string, Value>)
    ensures "_" !in r
    ensures forall k :: k in r <==> k in result && k != "_"
    ensures forall k :: k in r ==> r[k] == result[k]
  {
    map k | k in result && k != "_" :: result[k]
  }

  /** What a builder's handler is called with. */
  datatype Invocation = Invocation(message: Message, flags: map<string, Value>, args: seq<string>)

  /** The handler argument `run` builds from a message: parse the stripped content with this builder's options. */
  function BuildInvocation<H>(b: Builder<H>, config: Config, message: Message, parse: Parser): (inv: Invocation)
    ensures inv.message == message
    ensures var result := parse(ParserText(config, message.content), ParserOptionsOf(b));
      && inv.args == BuilderArgs(Positional(result))
      && inv.flags == BuilderFlags(result)
  {
    var result := parse(ParserText(config, message.content), ParserOptionsOf(b));
    Invocation(message, BuilderFlags(result), BuilderArgs(Positional(result)))
  }

  /**
   `run(message)`: with a handler, it is called exactly once and a throw becomes
   one reply; without one, nothing is called and one `CommandError` reply is sent.
   */
  function Run<H>(b: Builder<H>, config: Config, message: Message, parse: Parser,
                  call: (H, Invocation) -> Completion): (effects: seq<Effect<H, Invocation>>)
    ensures Invocations(effects) == (if b.handler.Some? then 1 else 0)
    ensures Replies(effects) <= 1
    ensures b.handler.None? ==> effects == [Replied(CommandError(MissingHandlerMessage))]
    ensures b.handler.Some? ==>
      var inv := BuildInvocation(b, config, message, parse);
      && effects[0] == Invoked(b.handler.value, inv)
      && Replies(effects) == (if call(b.handler.value, inv).Threw? then 1 else 0)
    ensures b.handler.Some? ==>
      var inv := BuildInvocation(b, config, message, parse);
      var out := call(b.handler.value, inv);
      effects == [Invoked(b.handler.value, inv)] + (if out.Threw? then [Replied(Thrown(out.payload))] else [])
  {
    var inv := BuildInvocation(b, config, message, parse);
    match b.handler
    case None =>
      var r: seq<Effect<H, Invocation>> := [Replied(CommandError(MissingHandlerMessage))];
      assert r[1..] == [];
      r
    case Some(h) => CallCatching(h, inv, call(h, inv))
  }
}
