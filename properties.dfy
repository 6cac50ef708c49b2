/**
 * Properties of the unparser model: the shape of the output, the filter,
 * the null check, and agreement with the `flat` library's leaf enumeration.
 */
module UnparserProperties {
  import opened Wrappers
  import opened Unparser

  // ---------------------------------------------------------------------------
  // Flag formatting and the expansion of each kind of value

  /** A string counts at least one and at most two UTF-16 code units per character. */
  lemma {:induction false} Utf16LengthBounds(s: string)
    ensures |s| <= Utf16Length(s) <= 2 * |s|
  {
    if s != [] {
      Utf16LengthBounds(s[1..]);
    }
  }

  /** A string is one code unit long exactly when it is one character of the Basic Multilingual Plane. */
  lemma Utf16LengthOne(s: string)
    ensures Utf16Length(s) == 1 <==> |s| == 1 && s[0] as int <= 0xFFFF
  {
    if s != [] {
      Utf16LengthBounds(s[1..]);
    }
  }

  /** The flag takes a single dash exactly when the key's JavaScript `length` is 1. */
  lemma KeyToFlagCountsCodeUnits(key: string)
    ensures KeyToFlag(key) == if Utf16Length(key) == 1 then "-" + key else "--" + key
  {
    Utf16LengthOne(key);
  }

  /**
   * The key appears verbatim after one dash or two; it gets one dash exactly
   * when it is a single character of the Basic Multilingual Plane, so a key
   * made of one astral character such as an emoji gets two.
   */
  lemma KeyToFlagShape(key: string)
    ensures var flag := KeyToFlag(key);
      |flag| > |key| && flag[|flag| - |key|..] == key
      && (forall i :: 0 <= i < |flag| - |key| ==> flag[i] == '-')
      && (|flag| == |key| + 1 <==> |key| == 1 && key[0] as int <= 0xFFFF)
      && |flag| <= |key| + 2
  {
    Utf16LengthOne(key);
  }

  /** An emoji key is two UTF-16 code units long in JavaScript and so gets the long form. */
  lemma AstralKeyIsLong()
    ensures KeyToFlag("\U{1F600}") == "--\U{1F600}"
  {
    KeyToFlagCountsCodeUnits("\U{1F600}");
    assert Utf16Length("\U{1F600}") == 2;
  }

  /**
   * Token counts per kind: a string gives the flag and the string (even when
   * empty), `true` the flag alone, `false` the single long negation whatever
   * the key's length, an array one flag followed by every item, any other
   * value the flag and its string form, and an empty object nothing.
   */
  lemma ExpansionByKind(key: string, s: string, items: seq<string>, text: string)
    ensures ExpandOption(key, Str(s)) == Success([KeyToFlag(key), s])
    ensures ExpandOption(key, Bool(true)) == Success([KeyToFlag(key)])
    ensures var negated := ExpandOption(key, Bool(false)).value;
      |negated| == 1 && negated[0][..5] == "--no-" && negated[0][5..] == key
    ensures var grouped := ExpandOption(key, Arr(items)).value;
      |grouped| == |items| + 1 && grouped[0] == KeyToFlag(key) && grouped[1..] == items
    ensures ExpandOption(key, Other(text)) == Success([KeyToFlag(key), text])
    ensures ExpandOption(key, Obj([])) == Success([])
    ensures ExpandOption(key, Null) == Failure(NullValue(key))
  {
    assert ("--no-" + key)[..5] == "--no-";
    assert ("--no-" + key)[5..] == key;
  }

  // ---------------------------------------------------------------------------
  // The null check

  /** The value is null, or a plain object with a null somewhere among its leaves. */
  predicate HasNull(value: Value)
    decreases value
  {
    match value
    case Null => true
    case Obj(entries) => exists i :: 0 <= i < |entries| && HasNull(entries[i].1)
    case _ => false
  }

  /** Expanding a value throws exactly when it holds a null; array items never do. */
  lemma {:induction false} ExpandOptionFails(key: string, value: Value)
    ensures ExpandOption(key, value).Failure? <==> HasNull(value)
    decreases value, 1
  {
    if value.Obj? {
      ExpandEntriesFails(Some(key), value.entries, |value.entries|);
    }
  }

  /** Expanding entries throws exactly when one of them holds a null. */
  lemma {:induction false} ExpandEntriesFails(prefix: Option<string>, entries: Entries, n: nat)
    requires n <= |entries|
    ensures ExpandEntries(prefix, entries, n).Failure?
        <==> exists i :: 0 <= i < n && HasNull(entries[i].1)
    decreases Obj(entries), 0, n
  {
    if n > 0 {
      ExpandEntriesFails(prefix, entries, n - 1);
      ExpandOptionFails(FullKey(prefix, entries[n - 1].0), entries[n - 1].1);
    }
  }

  // ---------------------------------------------------------------------------
  // The filter

  /** `omitBy` keeps exactly the entries whose key is not filtered out. */
  lemma {:induction false} OmitByKeeps(entries: Entries, alias: AliasTable, camelCase: string -> string)
    ensures forall e :: (e in OmitBy(entries, alias, camelCase)
        <==> e in entries && !Omitted(e.0, alias, camelCase))
    decreases |entries|
  {
    if entries != [] {
      var init := entries[..|entries| - 1];
      OmitByKeeps(init, alias, camelCase);
      assert entries == init + [entries[|entries| - 1]];
    }
  }

  /** `omitBy` preserves the input order: filtering a concatenation filters each part. */
  lemma {:induction false} OmitByAppend(a: Entries, b: Entries, alias: AliasTable, camelCase: string -> string)
    ensures OmitBy(a + b, alias, camelCase) == OmitBy(a, alias, camelCase) + OmitBy(b, alias, camelCase)
    decreases |b|
  {
    if b == [] {
      assert a + b == a;
    } else {
      var init := b[..|b| - 1];
      OmitByAppend(a, init, alias, camelCase);
      assert (a + b)[..|a + b| - 1] == a + init;
    }
  }

  /** Deleting an entry whose key is filtered out does not change what `omitBy` keeps. */
  lemma OmitByDrops(entries: Entries, alias: AliasTable, camelCase: string -> string, i: nat)
    requires i < |entries|
    requires Omitted(entries[i].0, alias, camelCase)
    ensures OmitBy(entries[..i] + entries[i + 1..], alias, camelCase) == OmitBy(entries, alias, camelCase)
  {
    var a, e, b := entries[..i], entries[i], entries[i + 1..];
    assert OmitBy([e], alias, camelCase) == [] by {
      assert [e][..0] == [];
    }
    calc {
      OmitBy(entries, alias, camelCase);
      { assert entries == a + ([e] + b); }
      OmitBy(a + ([e] + b), alias, camelCase);
      { OmitByAppend(a, [e] + b, alias, camelCase); }
      OmitBy(a, alias, camelCase) + OmitBy([e] + b, alias, camelCase);
      { OmitByAppend([e], b, alias, camelCase); }
      OmitBy(a, alias, camelCase) + (OmitBy([e], alias, camelCase) + OmitBy(b, alias, camelCase));
      { assert OmitBy([e], alias, camelCase) + OmitBy(b, alias, camelCase) == OmitBy(b, alias, camelCase); }
      OmitBy(a, alias, camelCase) + OmitBy(b, alias, camelCase);
      { OmitByAppend(a, b, alias, camelCase); }
      OmitBy(a + b, alias, camelCase);
    }
  }

  /**
   * `castArray` then `indexOf`: a key is an alias when some entry of the
   * table names it, either as its single alias or inside its list; the
   * canonical names themselves are not looked at.
   */
  lemma AliasTableMembership(key: string, alias: AliasTable)
    ensures IsAlias(key, alias) <==>
      (exists j :: 0 <= j < |alias| && (alias[j].1 == One(key) || (alias[j].1.Many? && key in alias[j].1.names)))
  {
    if IsAlias(key, alias) {
      var j :| 0 <= j < |alias| && key in CastArray(alias[j].1);
      assert alias[j].1 == One(key) || (alias[j].1.Many? && key in alias[j].1.names);
    }
    if exists j :: 0 <= j < |alias| && (alias[j].1 == One(key) || (alias[j].1.Many? && key in alias[j].1.names)) {
      var j :| 0 <= j < |alias| && (alias[j].1 == One(key) || (alias[j].1.Many? && key in alias[j].1.names));
      assert key in CastArray(alias[j].1);
    }
  }

  /** With no options, or no alias table, only the reserved and the camel-cased keys are dropped. */
  lemma DefaultAliasTable(key: string, options: Option<Options>, camelCase: string -> string)
    requires options.None? || options.value.alias.None?
    ensures Omitted(key, AliasOf(options), camelCase)
        <==> key == "_" || key == "--" || IsCamelCased(key, camelCase)
  {
  }

  /** `$0` has no special case: unless it is listed as an alias, it is kept. */
  lemma ProgramNameIsKept(alias: AliasTable, camelCase: string -> string)
    requires !IsAlias("$0", alias)
    ensures !Omitted("$0", alias, camelCase)
  {
    assert !IsUpper("$0"[0]) && !IsUpper("$0"[1]);
  }

  /** Deleting an entry whose key is filtered out leaves the result unchanged. */
  lemma OmittedEntryRemoved(argv: Argv, options: Option<Options>, camelCase: string -> string, i: nat)
    requires i < |argv.entries|
    requires Omitted(argv.entries[i].0, AliasOf(options), camelCase)
    ensures Unparse(argv.(entries := argv.entries[..i] + argv.entries[i + 1..]), options, camelCase)
         == Unparse(argv, options, camelCase)
  {
    OmitByDrops(argv.entries, AliasOf(options), camelCase, i);
  }

  /**
   * The value under a filtered-out key is never looked at: replacing it, by
   * null for one, changes nothing and never throws.
   */
  lemma OmittedValueIgnored(argv: Argv, options: Option<Options>, camelCase: string -> string, i: nat, value: Value)
    requires i < |argv.entries|
    requires Omitted(argv.entries[i].0, AliasOf(options), camelCase)
    ensures Unparse(argv.(entries := argv.entries[i := (argv.entries[i].0, value)]), options, camelCase)
         == Unparse(argv, options, camelCase)
  {
    var replaced := argv.(entries := argv.entries[i := (argv.entries[i].0, value)]);
    OmittedEntryRemoved(argv, options, camelCase, i);
    OmittedEntryRemoved(replaced, options, camelCase, i);
    assert replaced.entries[..i] + replaced.entries[i + 1..] == argv.entries[..i] + argv.entries[i + 1..];
  }

  // ---------------------------------------------------------------------------
  // The whole call

  /** The call throws exactly when an entry that survives the filter holds a null. */
  lemma UnparseFails(argv: Argv, options: Option<Options>, camelCase: string -> string)
    ensures Unparse(argv, options, camelCase).Failure?
        <==> exists e :: e in OmitBy(argv.entries, AliasOf(options), camelCase) && HasNull(e.1)
  {
    var kept := OmitBy(argv.entries, AliasOf(options), camelCase);
    ExpandEntriesFails(None, kept, |kept|);
    if exists e :: e in kept && HasNull(e.1) {
      var e :| e in kept && HasNull(e.1);
      var i :| 0 <= i < |kept| && kept[i] == e;
      assert HasNull(kept[i].1);
    }
  }

  /**
   * The output is the positionals in order, then the options' tokens, then,
   * when `--` is present (even empty), the separator and its elements.
   */
  lemma OutputOrder(argv: Argv, options: Option<Options>, camelCase: string -> string)
    requires Unparse(argv, options, camelCase).Success?
    ensures var out := Unparse(argv, options, camelCase).value;
      var kept := OmitBy(argv.entries, AliasOf(options), camelCase);
      var p := Positionals(argv);
      var optionTokens := ExpandEntries(None, kept, |kept|).value;
      |p| + |optionTokens| <= |out|
      && out[..|p|] == p
      && out[|p|..|p| + |optionTokens|] == optionTokens
      && (argv.rest.None? ==> |out| == |p| + |optionTokens|)
      && (argv.rest.Some? ==>
            |out| == |p| + |optionTokens| + 1 + |argv.rest.value|
            && out[|p| + |optionTokens|] == "--"
            && out[|p| + |optionTokens| + 1..] == argv.rest.value)
  {
    var kept := OmitBy(argv.entries, AliasOf(options), camelCase);
    var optionTokens := ExpandEntries(None, kept, |kept|).value;
    var out := Unparse(argv, options, camelCase).value;
    assert out == Positionals(argv) + optionTokens + EndOfOptions(argv);
  }

  // ---------------------------------------------------------------------------
  // Agreement with `flat(value, {safe: true})`

  /** The path `flat` records for key `k` found below `prev`; an empty `prev` counts as absent. */
  function NewKey(prev: string, k: string): string
  {
    if prev == "" then k else prev + "." + k
  }

  /**
   * The `flat` library with `safe: true`: the leaves of a plain object under
   * their dotted paths, in key order. A non-empty plain object is descended
   * into; anything else, an array or an empty object included, is a leaf. As
   * in the library, an empty `prev` counts as absent, so no "." is added.
   */
  function Flatten(prev: string, entries: Entries, n: nat): Entries
    requires n <= |entries|
    decreases Obj(entries), n
  {
    if n == 0 then []
    else
      var (k, v) := entries[n - 1];
      Flatten(prev, entries, n - 1) + FlattenEntry(NewKey(prev, k), v)
  }

  /** The leaves `flat` records for one value found under `newKey`. */
  function FlattenEntry(newKey: string, value: Value): Entries
    decreases value, if value.Obj? then |value.entries| + 1 else 0
  {
    if value.Obj? && value.entries != [] then Flatten(newKey, value.entries, |value.entries|)
    else [(newKey, value)]
  }

  /** No entry with the empty key holds a non-empty plain object. */
  predicate NoEmptyKeyedObject(entries: Entries)
  {
    forall i :: 0 <= i < |entries| && entries[i].0 == "" ==> !(entries[i].1.Obj? && entries[i].1.entries != [])
  }

  /** The key under which a leaf found below `prev` lands when the object sits under `key`. */
  function Joined(key: string, prev: string): string
  {
    if prev == "" then key else key + "." + prev
  }

  /** Sequencing expansions is associative. */
  lemma ConcatAssociative(a: Tokens, b: Tokens, c: Tokens)
    ensures Concat(Concat(a, b), c) == Concat(a, Concat(b, c))
  {
    if a.Success? && b.Success? && c.Success? {
      assert (a.value + b.value) + c.value == a.value + (b.value + c.value);
    }
  }

  /** Expanding the first `n` entries depends on those entries only. */
  lemma {:induction false} ExpandEntriesPrefix(prefix: Option<string>, a: Entries, b: Entries, n: nat)
    requires n <= |a| && n <= |b| && a[..n] == b[..n]
    ensures ExpandEntries(prefix, a, n) == ExpandEntries(prefix, b, n)
    decreases n
  {
    if n > 0 {
      assert a[n - 1] == a[..n][n - 1] == b[..n][n - 1] == b[n - 1];
      assert a[..n - 1] == a[..n][..n - 1] == b[..n][..n - 1] == b[..n - 1];
      ExpandEntriesPrefix(prefix, a, b, n - 1);
    }
  }

  /** Expanding a concatenation expands each part; the first error wins. */
  lemma {:induction false} ExpandEntriesAppend(prefix: Option<string>, a: Entries, b: Entries, j: nat)
    requires j <= |b|
    ensures ExpandEntries(prefix, a + b, |a| + j)
         == Concat(ExpandEntries(prefix, a, |a|), ExpandEntries(prefix, b, j))
    decreases j
  {
    if j == 0 {
      assert (a + b)[..|a|] == a[..|a|];
      ExpandEntriesPrefix(prefix, a + b, a, |a|);
      var x := ExpandEntries(prefix, a, |a|);
      assert x.Success? ==> x.value + [] == x.value;
    } else {
      ExpandEntriesAppend(prefix, a, b, j - 1);
      assert (a + b)[|a| + j - 1] == b[j - 1];
      ConcatAssociative(ExpandEntries(prefix, a, |a|), ExpandEntries(prefix, b, j - 1),
                        ExpandOption(FullKey(prefix, b[j - 1].0), b[j - 1].1));
    }
  }

  /**
   * Direct recursion over nested objects yields the same tokens as `flat`
   * followed by one `unparseOption` per leaf, as long as no empty key holds a
   * non-empty object where `flat` would drop the ".".
   */
  lemma {:induction false} FlattenAgrees(key: string, prev: string, entries: Entries, n: nat)
    requires n <= |entries|
    requires prev == "" ==> NoEmptyKeyedObject(entries)
    ensures var leaves := Flatten(prev, entries, n);
      ExpandEntries(Some(Joined(key, prev)), entries, n) == ExpandEntries(Some(key), leaves, |leaves|)
    decreases Obj(entries), n
  {
    if n > 0 {
      FlattenAgrees(key, prev, entries, n - 1);
      var before := Flatten(prev, entries, n - 1);
      assert ExpandEntries(Some(Joined(key, prev)), entries, n - 1) == ExpandEntries(Some(key), before, |before|);
      var k, v := entries[n - 1].0, entries[n - 1].1;
      var here := FlattenEntry(NewKey(prev, k), v);
      assert v.Obj? && v.entries != [] ==> NewKey(prev, k) != "";
      FlattenEntryAgrees(key, NewKey(prev, k), v);
      FlattenAgreesStep(key, prev, entries, n, before, here);
      assert Flatten(prev, entries, n) == before + here;
    }
  }

  /**
   * The full key of an entry found below `prev` is the dotted path `flat`
   * records for it, under `key`, so both expand the entry's value alike.
   */
  lemma JoinedKey(key: string, prev: string, k: string, v: Value)
    ensures FullKey(Some(Joined(key, prev)), k) == key + "." + NewKey(prev, k)
    ensures ExpandOption(FullKey(Some(Joined(key, prev)), k), v) == ExpandOption(key + "." + NewKey(prev, k), v)
  {
    if prev != "" {
      assert key + "." + prev + "." + k == key + "." + (prev + "." + k);
    }
  }

  /**
   * One step of the agreement: when the first n - 1 entries agree with the
   * leaves `before` and entry n agrees with the leaves `here`, the first n
   * entries agree with `before + here`.
   */
  lemma FlattenAgreesStep(key: string, prev: string, entries: Entries, n: nat, before: Entries, here: Entries)
    requires 0 < n <= |entries|
    requires ExpandEntries(Some(Joined(key, prev)), entries, n - 1) == ExpandEntries(Some(key), before, |before|)
    requires ExpandOption(key + "." + NewKey(prev, entries[n - 1].0), entries[n - 1].1)
          == ExpandEntries(Some(key), here, |here|)
    ensures ExpandEntries(Some(Joined(key, prev)), entries, n) == ExpandEntries(Some(key), before + here, |before + here|)
  {
    var k, v := entries[n - 1].0, entries[n - 1].1;
    JoinedKey(key, prev, k, v);
    ExpandEntriesAppend(Some(key), before, here, |here|);
    calc {
      ExpandEntries(Some(Joined(key, prev)), entries, n);
      Concat(ExpandEntries(Some(Joined(key, prev)), entries, n - 1), ExpandOption(FullKey(Some(Joined(key, prev)), k), v));
      Concat(ExpandEntries(Some(key), before, |before|), ExpandEntries(Some(key), here, |here|));
      ExpandEntries(Some(key), before + here, |before| + |here|);
    }
  }

  /** One entry: expanding it directly equals expanding the leaves `flat` records for it. */
  lemma {:induction false} FlattenEntryAgrees(key: string, newKey: string, value: Value)
    requires value.Obj? && value.entries != [] ==> newKey != ""
    ensures var here := FlattenEntry(newKey, value);
      ExpandOption(key + "." + newKey, value) == ExpandEntries(Some(key), here, |here|)
    decreases value, if value.Obj? then |value.entries| + 1 else 0
  {
    if value.Obj? && value.entries != [] {
      FlattenAgrees(key, newKey, value.entries, |value.entries|);
    } else {
      var x := ExpandOption(key + "." + newKey, value);
      assert ExpandEntries(Some(key), [(newKey, value)], 1) == Concat(Success([]), x);
      assert x.Success? ==> [] + x.value == x.value;
    }
  }

  /** The object case of `unparseOption`, as the direct recursion and as `flat` then dispatch. */
  lemma ObjectMatchesFlat(key: string, entries: Entries)
    requires NoEmptyKeyedObject(entries)
    ensures var leaves := Flatten("", entries, |entries|);
      ExpandOption(key, Obj(entries)) == ExpandEntries(Some(key), leaves, |leaves|)
  {
    FlattenAgrees(key, "", entries, |entries|);
  }

  /**
   * Where the two differ: `flat` drops the "." after an empty key that holds a
   * non-empty object, so `{foo: {"": {a: "x"}}}` gives `--foo.a x`, while the
   * direct recursion gives `--foo..a x`.
   */
  lemma EmptyKeyDivergence()
    ensures var entries := [("", Obj([("a", Str("x"))]))];
      var leaves := Flatten("", entries, |entries|);
      ExpandEntries(Some("foo"), leaves, |leaves|) == Success(["--foo.a", "x"])
      && ExpandOption("foo", Obj(entries)) == Success(["--foo..a", "x"])
  {
    var inner := [("a", Str("x"))];
    var entries := [("", Obj(inner))];
    // `flat` then dispatch
    assert Flatten("", inner, 1) == [] + FlattenEntry("a", Str("x"));
    assert Flatten("", entries, 1) == [] + FlattenEntry("", Obj(inner));
    assert Flatten("", entries, 1) == inner;
    assert |entries| == 1 && |inner| == 1;
    assert FullKey(Some("foo"), "a") == "foo.a";
    assert KeyToFlag("foo.a") == "--foo.a";
    assert ExpandOption("foo.a", Str("x")) == Success(["--foo.a", "x"]);
    assert ExpandEntries(Some("foo"), inner, 1) == Concat(Success([]), Success(["--foo.a", "x"]));
    assert [] + ["--foo.a", "x"] == ["--foo.a", "x"];
    // direct recursion
    assert FullKey(Some("foo"), "") == "foo.";
    assert FullKey(Some("foo."), "a") == "foo..a";
    assert KeyToFlag("foo..a") == "--foo..a";
    assert ExpandOption("foo..a", Str("x")) == Success(["--foo..a", "x"]);
    assert ExpandEntries(Some("foo."), inner, 1) == Concat(Success([]), Success(["--foo..a", "x"]));
    assert [] + ["--foo..a", "x"] == ["--foo..a", "x"];
    assert ExpandOption("foo.", Obj(inner)) == ExpandEntries(Some("foo."), inner, 1);
    assert ExpandEntries(Some("foo"), entries, 1)
        == Concat(ExpandEntries(Some("foo"), entries, 0), ExpandOption("foo.", Obj(inner)));
    assert ExpandOption("foo", Obj(entries)) == ExpandEntries(Some("foo"), entries, 1);
  }

  /**
   * `flat` never leaves a non-empty object as a leaf, and every leaf found
   * below a non-empty `prev` carries `prev` and a "." in front of its key.
   */
  lemma {:induction false} FlattenLeaves(prev: string, entries: Entries, n: nat)
    requires n <= |entries|
    ensures forall leaf :: leaf in Flatten(prev, entries, n) ==>
      !(leaf.1.Obj? && leaf.1.entries != [])
      && (prev != "" ==> |leaf.0| > |prev| && leaf.0[..|prev| + 1] == prev + ".")
    decreases Obj(entries), n
  {
    if n > 0 {
      var (k, v) := entries[n - 1];
      var newKey := NewKey(prev, k);
      FlattenLeaves(prev, entries, n - 1);
      if v.Obj? && v.entries != [] {
        FlattenLeaves(newKey, v.entries, |v.entries|);
        if prev != "" {
          forall leaf | leaf in Flatten(newKey, v.entries, |v.entries|)
            ensures |leaf.0| > |prev| && leaf.0[..|prev| + 1] == prev + "."
          {
            assert leaf.0[..|prev| + 1] == leaf.0[..|newKey| + 1][..|prev| + 1];
          }
        }
      }
    }
  }

  /**
   * A dotted key is written with the long "--" form unless both the parent
   * key and the path are empty (the key "." then gets a single dash).
   */
  lemma NestedFlagsAreLong(key: string, path: string)
    ensures KeyToFlag(FullKey(Some(key), path))
         == (if key == "" && path == "" then "-." else "--" + key + "." + path)
  {
  }
}
