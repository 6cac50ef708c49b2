/**
 * The unparser: turns a parsed-arguments object back into a flat, ordered
 * list of command-line tokens (index.js).
 *
 * Values are modelled as a tagged union, one constructor per branch of the
 * value dispatch; the pure functions below are the specification, and the
 * methods `UnparseOption` and `Unparser` follow the source's loops, pushing
 * onto a token accumulator, and are proved equal to that specification.
 */
module Unparser {
  import opened Wrappers

  /** An option value, as the dispatch of `unparseOption` sees it. */
  datatype Value =
    | Str(s: string)                      // typeof value === 'string'
    | Bool(b: bool)                       // true or false
    | Arr(items: seq<string>)             // an array; each item already in its `${item}` form
    | Obj(entries: seq<(string, Value)>)  // a plain object, its keys in iteration order
    | Other(text: string)                 // a number, Date, RegExp, class instance: its `${value}`
    | Null                                // null or undefined

  /** The keys of an object with their values, in iteration order. */
  type Entries = seq<(string, Value)>

  /** One entry of the alias table: a single alias name or an array of them. */
  datatype AliasNames = One(name: string) | Many(names: seq<string>)

  /** The alias table: canonical option name to its alias names. */
  type AliasTable = seq<(string, AliasNames)>

  /** The options object; `alias` is `None` when the property is absent or undefined. */
  datatype Options = Options(alias: Option<AliasTable>)

  /**
   * The parsed arguments. `positionals` is the array at `_` and `rest` the
   * array at `--` (`None` when the property is absent); `entries` holds the
   * object's keys in iteration order.
   */
  datatype Argv = Argv(positionals: Option<seq<string>>, entries: Entries, rest: Option<seq<string>>)

  /** The TypeError thrown for a null or undefined value, naming its (dotted) key. */
  datatype Error = NullValue(key: string)

  type Tokens = Result<seq<string>, Error>

  // ---------------------------------------------------------------------------
  // Key predicates and flag formatting

  /** `castArray`: a single alias becomes a one-element list. */
  function CastArray(aliases: AliasNames): seq<string>
  {
    match aliases
    case One(name) => [name]
    case Many(names) => names
  }

  /** The key is listed as an alias under some canonical name of the table. */
  predicate IsAlias(key: string, alias: AliasTable)
  {
    exists i :: 0 <= i < |alias| && key in CastArray(alias[i].1)
  }

  predicate IsUpper(c: char)
  {
    'A' <= c <= 'Z'
  }

  /** `/[A-Z]/.test(key)`. */
  predicate HasUpper(key: string)
  {
    exists i :: 0 <= i < |key| && IsUpper(key[i])
  }

  /** The key holds an upper-case letter and `camelCase` leaves it unchanged. */
  predicate IsCamelCased(key: string, camelCase: string -> string)
  {
    HasUpper(key) && camelCase(key) == key
  }

  /** The `omitBy` predicate of `unparser`: keys that are never expanded. */
  predicate Omitted(key: string, alias: AliasTable, camelCase: string -> string)
  {
    key == "_" || key == "--" || IsAlias(key, alias) || IsCamelCased(key, camelCase)
  }

  /** The UTF-16 code units of a character: two for one outside the Basic Multilingual Plane. */
  function CodeUnits(c: char): nat
  {
    if c as int > 0xFFFF then 2 else 1
  }

  /** JavaScript's `length` of a string: the number of its UTF-16 code units. */
  function Utf16Length(s: string): nat
  {
    if s == [] then 0 else CodeUnits(s[0]) + Utf16Length(s[1..])
  }

  /**
   * A key of one UTF-16 code unit, that is a single character of the Basic
   * Multilingual Plane, gets a single dash; every other key gets two.
   */
  function KeyToFlag(key: string): string
  {
    if |key| == 1 && key[0] as int <= 0xFFFF then "-" + key else "--" + key
  }

  // ---------------------------------------------------------------------------
  // Specification of the expansion

  /** Sequencing of two expansions: the first failure wins, otherwise the tokens are joined. */
  function Concat(a: Tokens, b: Tokens): Tokens
  {
    if a.Failure? then a else if b.Failure? then b else Success(a.value + b.value)
  }

  /** The key under which an entry is expanded: nested keys are joined with ".". */
  function FullKey(prefix: Option<string>, key: string): string
  {
    match prefix
    case None => key
    case Some(parent) => parent + "." + key
  }

  /** The tokens `unparseOption(key, value)` pushes, or the error it throws. */
  function ExpandOption(key: string, value: Value): Tokens
    decreases value, if value.Obj? then |value.entries| + 1 else 0
  {
    match value
    case Null => Failure(NullValue(key))
    case Str(s) => Success([KeyToFlag(key), s])
    case Bool(b) => if b then Success([KeyToFlag(key)]) else Success(["--no-" + key])
    case Arr(items) => Success([KeyToFlag(key)] + items)
    case Obj(entries) => ExpandEntries(Some(key), entries, |entries|)
    case Other(text) => Success([KeyToFlag(key), text])
  }

  /** The tokens of the first `n` entries, each expanded under its full key, in order. */
  function ExpandEntries(prefix: Option<string>, entries: Entries, n: nat): Tokens
    requires n <= |entries|
    decreases Obj(entries), n
  {
    if n == 0 then Success([])
    else Concat(ExpandEntries(prefix, entries, n - 1),
                ExpandOption(FullKey(prefix, entries[n - 1].0), entries[n - 1].1))
  }

  /** Once an entry throws, the later entries are never reached: the error is final. */
  lemma {:induction false} FailureIsFinal(prefix: Option<string>, entries: Entries, m: nat, n: nat)
    requires m <= n <= |entries|
    requires ExpandEntries(prefix, entries, m).Failure?
    ensures ExpandEntries(prefix, entries, n) == ExpandEntries(prefix, entries, m)
    decreases n
  {
    if m < n {
      FailureIsFinal(prefix, entries, m, n - 1);
    }
  }

  /** One more entry: its expansion is pushed after those of the entries before it. */
  lemma ExpandEntriesNext(prefix: Option<string>, entries: Entries, i: nat, pushed: seq<string>)
    requires i < |entries|
    requires ExpandEntries(prefix, entries, i) == Success(pushed)
    ensures ExpandEntries(prefix, entries, i + 1)
         == Push(pushed, ExpandOption(FullKey(prefix, entries[i].0), entries[i].1))
  {
  }

  /** The `omitBy` of `unparser`: the entries that survive the filter, in input order. */
  function OmitBy(entries: Entries, alias: AliasTable, camelCase: string -> string): (kept: Entries)
    ensures |kept| <= |entries|
  {
    if entries == [] then []
    else
      var last := entries[|entries| - 1];
      OmitBy(entries[..|entries| - 1], alias, camelCase)
      + (if Omitted(last.0, alias, camelCase) then [] else [last])
  }

  /** `Object.assign({alias: {}}, options).alias`; an undefined table filters nothing. */
  function AliasOf(options: Option<Options>): AliasTable
  {
    match options
    case None => []
    case Some(o) => if o.alias.Some? then o.alias.value else []
  }

  /** The tokens pushed for `_`: its elements, as they are. */
  function Positionals(argv: Argv): seq<string>
  {
    if argv.positionals.Some? then argv.positionals.value else []
  }

  /** The tokens pushed for `--`: the separator and its elements, even when it is empty. */
  function EndOfOptions(argv: Argv): seq<string>
  {
    if argv.rest.Some? then ["--"] + argv.rest.value else []
  }

  /** What `unparser(argv, options)` returns, or the error it throws. */
  function Unparse(argv: Argv, options: Option<Options>, camelCase: string -> string): Tokens
  {
    var kept := OmitBy(argv.entries, AliasOf(options), camelCase);
    match ExpandEntries(None, kept, |kept|)
    case Failure(e) => Failure(e)
    case Success(tokens) => Success(Positionals(argv) + tokens + EndOfOptions(argv))
  }

  /** The accumulator after pushing an expansion onto it, or the expansion's error. */
  function Push(unparsed: seq<string>, expansion: Tokens): Tokens
  {
    match expansion
    case Failure(e) => Failure(e)
    case Success(tokens) => Success(unparsed + tokens)
  }

  // ---------------------------------------------------------------------------
  // The algorithm, as the source runs it

  /**
   * `unparseOption(key, value, unparsed)`: pushes the value's tokens onto the
   * accumulator; a plain object is walked entry by entry under dotted keys.
   */
  method UnparseOption(key: string, value: Value, unparsed: seq<string>) returns (res: Tokens)
    ensures res == Push(unparsed, ExpandOption(key, value))
    decreases value, 1
  {
    match value {
      case Null =>
        return Failure(NullValue(key));
      case Str(s) =>
        return Success(unparsed + [KeyToFlag(key), s]);
      case Bool(b) =>
        if b {
          return Success(unparsed + [KeyToFlag(key)]);
        } else {
          return Success(unparsed + ["--no-" + key]);
        }
      case Arr(items) =>
        return Success(unparsed + ([KeyToFlag(key)] + items));
      case Obj(entries) =>
        res := UnparseEntries(Some(key), entries, unparsed);
      case Other(text) =>
        return Success(unparsed + [KeyToFlag(key), text]);
    }
  }

  /**
   * The `for ... in` loops of `unparseOption` (over the flattened object) and
   * of `unparser` (over the filtered arguments): each entry in turn is
   * unparsed under its full key; the first error aborts the walk.
   */
  method UnparseEntries(prefix: Option<string>, entries: Entries, unparsed: seq<string>) returns (res: Tokens)
    ensures res == Push(unparsed, ExpandEntries(prefix, entries, |entries|))
    decreases Obj(entries), 0
  {
    var acc := unparsed;
    ghost var pushed: seq<string> := [];
    for i := 0 to |entries|
      invariant acc == unparsed + pushed
      invariant ExpandEntries(prefix, entries, i) == Success(pushed)
    {
      var r := UnparseOption(FullKey(prefix, entries[i].0), entries[i].1, acc);
      ExpandEntriesNext(prefix, entries, i, pushed);
      if r.Failure? {
        FailureIsFinal(prefix, entries, i + 1, |entries|);
        return r;
      }
      pushed := ExpandEntries(prefix, entries, i + 1).value;
      acc := r.value;
    }
    return Success(acc);
  }

  /**
   * `unparser(argv, options)`: positionals, then every entry that survives
   * the filter, then the end-of-options segment.
   */
  method Unparser(argv: Argv, options: Option<Options>, camelCase: string -> string) returns (res: Tokens)
    ensures res == Unparse(argv, options, camelCase)
  {
    var alias := AliasOf(options);
    var unparsed: seq<string> := [];
    if argv.positionals.Some? {
      unparsed := unparsed + argv.positionals.value;
    }
    assert unparsed == Positionals(argv);
    var optionsArgv := OmitBy(argv.entries, alias, camelCase);
    var r := UnparseEntries(None, optionsArgv, unparsed);
    if r.Failure? {
      return r;
    }
    ghost var optionTokens := ExpandEntries(None, optionsArgv, |optionsArgv|).value;
    assert r.value == Positionals(argv) + optionTokens;
    unparsed := r.value;
    if argv.rest.Some? {
      unparsed := unparsed + (["--"] + argv.rest.value);
    }
    assert unparsed == Positionals(argv) + optionTokens + EndOfOptions(argv);
    return Success(unparsed);
  }
}
