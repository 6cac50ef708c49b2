# yargs-unparser, modelled in Dafny

yargs-unparser takes a parsed `argv` object and returns an ordered array of
command-line tokens, meant for a compatible argument parser to read back.
The model states what index.js emits; it makes no round-trip claim. The
output holds:

- the positional arguments found at `_`;
- one group of tokens per remaining option;
- `--`, followed by the elements found at `--`, when that property is present.

Three kinds of key are dropped before expansion:

- `_` and `--`;
- any key the `alias` table lists as an alias;
- any key that contains an upper-case letter and that lodash's `camelCase`
  leaves unchanged.

Each surviving option expands according to its value:

| value | tokens |
|---|---|
| a string, a number, a date or any other value | the flag, then the value's string form |
| `true` | the flag alone |
| `false` | `--no-<key>` |
| an array | the flag once, then every item |
| a plain object | flattened to dotted keys, each leaf expanded in turn |
| `null` or `undefined` | a `TypeError` is thrown |

A key whose JavaScript `length` is 1 gets a single dash, and every other key
gets two. That `length` counts UTF-16 code units, so a key made of one
character outside the Basic Multilingual Plane, such as an emoji, gets two
dashes. The model counts code units with `Utf16Length`.

The model has three files:

- `wrappers.dfy` holds `Option` and `Result`.
- `unparser.dfy` (module `Unparser`) holds the data model and the
  specification functions. The expansion is `ExpandOption`, and
  `ExpandEntries` applies it to the first `n` entries of an object. The whole
  call is `Unparse`, and the filter is `OmitBy`. The file also holds the
  source's imperative algorithm: `UnparseOption`, `UnparseEntries` (the two
  `for ... in` loops) and `Unparser`. Each pushes onto a token accumulator,
  and each is proved equal to its specification function.
- `properties.dfy` (module `UnparserProperties`) holds the lemmas:
  - the shape of flags and expansions;
  - exactly when the call throws;
  - what the filter keeps;
  - the order of the output;
  - agreement between the direct recursion over nested objects and the
    `flat` library's leaf enumeration, and the one input where they differ.

Inputs are modelled as follows:

- An `argv` object is an `Argv`. Its `_` and `--` properties are options,
  `None` when absent. Its other keys are a sequence of entries in iteration
  order.
- A thrown `TypeError` is a `Failure(NullValue(key))` that names the full
  dotted key.
- lodash's `camelCase` is a function parameter, `camelCase: string -> string`.
  Nothing is assumed about it.

Four behaviours of index.js are worth stating plainly:

- A camel-cased key is dropped whatever else `argv` holds (index.js:14-16,
  60-66). An `argv` holding only `someNumber: 1` gives no tokens for it. The
  test at test/index.spec.js:75-79 expects `--someNumber 1` for an `argv`
  built by the parser; index.js can only produce those tokens from another,
  non-camel-cased key of that `argv`.
- `$0` has no special case. It is emitted like any other key unless the alias
  table lists it (`ProgramNameIsKept`). The test at
  test/index.spec.js:106-112 expects `$0` to be left out.
- A `--` property that is present but empty still emits the separator `--`
  (index.js:73), because an empty array is truthy.
- Positionals are pushed as they are, not converted to strings (index.js:57).

## Model

| member | source | states |
|---|---|---|
| Unparser.UnparseOption | index.js:22-45 | pushing one option onto the accumulator: the result is the accumulator followed by the tokens `ExpandOption` gives for that value, or that expansion's error; the nested-object case walks the object through `UnparseEntries` |
| Unparser.UnparseEntries | index.js:36-40 | the loop over an object's keys, each unparsed under its dotted full key: the result is the accumulator followed by the concatenated expansions of all entries in key order, or the first entry's error; the loop invariant keeps the accumulator equal to the input plus the expansions of the entries seen so far |
| Unparser.Unparser | index.js:49-76 | the whole call returns exactly `Unparse`: positionals, then the expansion of every entry that survives the filter, in order, then `--` and its elements; or the first error |
| Unparser.FailureIsFinal | index.js:68-70 | once an entry throws, the entries after it are never reached: the walk's outcome is that error |
| Unparser.CastArray | index.js:11 | `castArray`: a single alias name as a one-element list, an alias array as it is |
| Unparser.IsAlias | index.js:10-12 | `isAlias`: some entry of the alias table lists the key among its alias names |
| Unparser.HasUpper | index.js:15 | the key holds a character from `A` to `Z` |
| Unparser.IsCamelCased | index.js:14-16 | `isCamelCased`: the key holds an upper-case letter and the given `camelCase` function maps it to itself |
| Unparser.Utf16Length | index.js:19 | JavaScript's `key.length`: one code unit per character of the Basic Multilingual Plane, two per character beyond it |
| Unparser.KeyToFlag | index.js:18-20 | `keyToFlag`: the key after one dash when it is a single code unit long, after two dashes otherwise |
| Unparser.Omitted | index.js:60-66 | the `omitBy` predicate: the key is `_`, `--`, an alias or camel-cased |
| Unparser.OmitBy | index.js:60-66 | the entries of `argv` whose keys are not dropped, in input order; never more entries than the input |
| Unparser.AliasOf | index.js:50-52 | the alias table in effect: the one given in the options, or an empty table when the options or their `alias` are absent |
| Unparser.Positionals | index.js:57 | the tokens pushed for `_`: its elements, or nothing when it is absent |
| Unparser.EndOfOptions | index.js:73 | the tokens pushed for `--`: the separator and its elements when it is present, even when empty; nothing when absent |
| Unparser.ExpandOption | index.js:22-45 | what `unparseOption` pushes for one value, by kind, or the `TypeError` for a null; a plain object walks its entries under `key.` |
| Unparser.ExpandEntries | index.js:36-40 | the tokens of an object's first n entries in key order, each under its full dotted key; the first error wins |
| Unparser.Unparse | index.js:49-76 | what `unparser` returns: positionals, the expansion of the kept entries, then the end-of-options segment; or the first error |
| UnparserProperties.NewKey | index.js:36 | the path `flat` records for a key below `prev`, joined by "."; an empty `prev` adds no "." |
| UnparserProperties.Flatten | index.js:36 | `flat(value, {safe: true})`: the leaves of a plain object under their dotted paths, in key order |
| UnparserProperties.FlattenEntry | index.js:36 | the leaves `flat` records for one value: those of a non-empty plain object, or the value itself as one leaf |
| UnparserProperties.Utf16LengthBounds | index.js:19 | a string's code-unit count lies between its number of characters and twice that number |
| UnparserProperties.Utf16LengthOne | index.js:19 | a string is one code unit long if and only if it is a single character of the Basic Multilingual Plane |
| UnparserProperties.KeyToFlagCountsCodeUnits | index.js:18-20 | the flag has one dash exactly when the key's JavaScript `length` is 1, and two otherwise |
| UnparserProperties.KeyToFlagShape | index.js:18-20 | a flag is the key after one or more dashes; it has one dash exactly when the key is a single character of the Basic Multilingual Plane, and at most two dashes |
| UnparserProperties.AstralKeyIsLong | index.js:19 | a key made of one emoji, two code units long, gets the long `--` form |
| UnparserProperties.ExpansionByKind | index.js:26-44 | a string gives [flag, string] even when the string is empty; `true` gives [flag]; `false` gives a single `--no-<key>` token for any key length; an array gives the flag once followed by all its items; any other value gives [flag, its text]; an empty object gives nothing; null throws, naming the key |
| UnparserProperties.ExpandOptionFails | index.js:23-25 | expanding a value throws if and only if the value is null or is a plain object with a null somewhere among its nested values |
| UnparserProperties.ExpandEntriesFails | index.js:36-40 | walking the first n entries throws if and only if one of them holds a null |
| UnparserProperties.UnparseFails | index.js:59-70 | the whole call throws if and only if some entry that survives the filter holds a null; a null under a dropped key never throws |
| UnparserProperties.OmitByKeeps | index.js:60-66 | an entry is in the filtered arguments if and only if it is in `argv` and its key is not `_`, `--`, an alias or camel-cased |
| UnparserProperties.OmitByAppend | index.js:60-66 | the filter keeps the relative order of entries: filtering a concatenation is the concatenation of the filtered parts |
| UnparserProperties.OmitByDrops | index.js:60-66 | deleting an entry whose key is dropped does not change the filtered arguments |
| UnparserProperties.OmittedEntryRemoved | index.js:60-70 | deleting from `argv` an entry whose key is dropped leaves the output, or the error, unchanged |
| UnparserProperties.OmittedValueIgnored | index.js:60-70 | the value under a dropped key is never looked at: replacing it with any value, null included, leaves the output unchanged |
| UnparserProperties.AliasTableMembership | index.js:10-12 | a key is an alias if and only if some table entry names it, either as its single alias or inside its alias array; canonical names are not aliases by themselves |
| UnparserProperties.DefaultAliasTable | index.js:50-52 | with no options, or no `alias` property, only `_`, `--` and camel-cased keys are dropped |
| UnparserProperties.ProgramNameIsKept | index.js:60-66 | `$0` is not dropped unless the alias table lists it |
| UnparserProperties.OutputOrder | index.js:56-75 | a successful output is the positionals in order, then the option tokens; it ends there when `--` is absent, and otherwise continues with `--` and exactly the elements of `--` (none when `--` is empty) |
| UnparserProperties.FlattenAgrees | index.js:35-40 | walking an object's entries under dotted keys yields the same tokens, or the same error, as walking the leaves that `flat` with `safe: true` lists for them, whenever no empty key holds a non-empty object at the top of the walk |
| UnparserProperties.JoinedKey | index.js:39 | the full key of an entry found below `prev` equals `key`, a ".", then the path `flat` records for it, so both expand the entry's value alike |
| UnparserProperties.FlattenAgreesStep | index.js:38-40 | when the first n - 1 entries agree with some leaves and entry n agrees with its own leaves, the first n entries agree with both sets of leaves joined |
| UnparserProperties.FlattenEntryAgrees | index.js:35-40 | one entry: expanding it directly equals expanding the leaves `flat` records for it |
| UnparserProperties.ObjectMatchesFlat | index.js:35-40 | the plain-object case of `unparseOption` equals flattening the object with `flat` and unparsing each leaf under `key.leaf`, when no empty key holds a non-empty object |
| UnparserProperties.EmptyKeyDivergence | index.js:36-39 | for `{foo: {"": {a: "x"}}}`, `flat` then dispatch gives `--foo.a x`, while the direct recursion gives `--foo..a x` |
| UnparserProperties.FlattenLeaves | index.js:36 | `flat` with `safe: true` never leaves a non-empty plain object as a leaf, and every leaf found below a non-empty prefix has that prefix and a "." in front of its key |
| UnparserProperties.NestedFlagsAreLong | index.js:39 | a dotted key always gets the long `--` form; the one exception is the key "." built from an empty parent and an empty path, which gets `-.` |

## Left out

- lodash `camelCase` is not modelled. It is the parameter `camelCase`, and the lemmas hold for every such function. `isCamelCased` is modelled on top of it.
- lodash `castArray`, `some`, `omitBy` and `isPlainObject` are replaced by sequence operations over the entries and by the `Obj` constructor of `Value`.
- `flat` is not modelled as a separate output object. The nested-object case is modelled as a direct recursion. `Flatten` is its leaf enumeration, and it is related to the model by `FlattenAgrees`. Three behaviours of `flat` are not captured:
  - Two flattened paths that collide, such as a key `"a.b"` next to `a: {b: …}`, collapse into one key in `flat`'s output object, and the model keeps both.
  - `flat`'s treatment of an empty key holding a non-empty object differs from the model, as `EmptyKeyDivergence` shows; outside that case the two agree.
  - `flat` descends into any non-array, non-Buffer object with own keys, class instances included, and its `maxDepth` option is not modelled. Such values are modelled as leaves (`Other`).
- JavaScript property order is not modelled. That order places integer-like keys first, in numeric order. Entries are taken in the order given.
- JavaScript string conversion (`${item}`, `${value}`) is not modelled. Array items and `Other` values carry their string form already.
- The `TypeError` message text is not modelled. The error carries the offending key only.
- Positionals that are not strings, and `_` or `--` values that are not arrays, are not modelled. Those values are sequences of strings, and a present `_` or `--` is taken as an array.
- Duplicate keys in `argv` are not modelled. A JavaScript object cannot hold duplicates; the model's entry sequence does not forbid them.
- The shared, mutable `unparsed` array is not modelled. The methods thread it as a value and return the new accumulator, so aliasing of that array by a caller is not modelled.
- The module export (index.js:78) is not modelled.
- KeyToFlag: strings, keys included, are sequences of Unicode scalar values, so a JavaScript string holding a lone surrogate cannot be represented. For every key that can be represented, the dash count follows JavaScript's `key.length`, counted in UTF-16 code units (`KeyToFlagCountsCodeUnits`).
