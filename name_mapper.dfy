/**
 * The name mapper: how a raw identifier becomes its target name (exact
 * table, then part table, then the default namer, then unchanged), the cache
 * that makes every later lookup of the same name agree with the first one,
 * and the pluralized form used for entity-set names.
 */
module NameMapper {
  import opened Common
  import opened Text
  import opened DefaultNamer
  import opened Rules
  import opened Selection

  /** The English pluralization service, a collaborator outside the renamer. */
  datatype Pluralizer = Pluralizer(isPlural: string -> bool, pluralize: string -> string)

  /** The settings of one run, fixed once the command line is read. */
  datatype Config = Config(
    useDefaultNamer: bool,         // cleared by -d
    caseInsensitive: bool,         // set by -i
    nameMapper: Option<Table>,     // -m: exact names
    partNameMapper: Option<Table>, // -p: name parts
    selection: Selection,          // -t and -tp
    plural: Pluralizer)

  /** Resolved names, keyed by CacheKey; filled lazily and never changed. */
  type Cache = map<string, string>

  /** `*` marks a class name and `-` a member name; compared through the comparer like table keys. */
  function CacheKey(caseInsensitive: bool, n: string, isClass: bool): string
  {
    Key(caseInsensitive, (if isClass then "*" else "-") + n)
  }

  /** What one `_`-separated part contributes: its table entry, else its default name or nothing. */
  function PartName(cfg: Config, pt: Table, p: string): string
  {
    var k := Key(cfg.caseInsensitive, p);
    if k in pt then pt[k] else if cfg.useDefaultNamer then DefaultName(p) else ""
  }

  /** The contributions of the parts, concatenated in order. */
  function PartsName(cfg: Config, pt: Table, parts: seq<string>): string
    decreases |parts|
  {
    if parts == [] then ""
    else PartsName(cfg, pt, parts[..|parts| - 1]) + PartName(cfg, pt, parts[|parts| - 1])
  }

  /** The target name of a raw name that is not yet in the cache. */
  function Resolve(cfg: Config, n: string): string
  {
    var k := Key(cfg.caseInsensitive, n);
    if cfg.nameMapper.Some? && k in cfg.nameMapper.value then cfg.nameMapper.value[k]
    else if cfg.partNameMapper.Some? then PartsName(cfg, cfg.partNameMapper.value, Split(n, '_'))
    else if cfg.useDefaultNamer then DefaultName(n)
    else n
  }

  /** One `MapName` call on a cache: the name returned and the cache afterwards. */
  function NameStep(cfg: Config, c: Cache, n: string, isClass: bool): (string, Cache)
  {
    var key := CacheKey(cfg.caseInsensitive, n, isClass);
    if key in c then (c[key], c)
    else
      var m := Resolve(cfg, n);
      (m, c[key := m])
  }

  /** The mapped name, pluralized unless the service already finds it plural. */
  function PluralName(plu: Pluralizer, m: string): string
  {
    if plu.isPlural(m) then m else plu.pluralize(m)
  }

  /** One `MapNamePlural` call on a cache. */
  function PluralStep(cfg: Config, c: Cache, n: string): (string, Cache)
  {
    var (m, c1) := NameStep(cfg, c, n, true);
    (PluralName(cfg.plural, m), c1)
  }

  /** `c'` keeps every entry of `c`. */
  ghost predicate Extends(c: Cache, c': Cache)
  {
    forall k :: k in c ==> k in c' && c'[k] == c[k]
  }

  /** The mapper's state for one run: the configuration and the shared cache. */
  class Renamer {
    const cfg: Config
    var cache: Cache

    constructor (cfg: Config)
      ensures this.cfg == cfg && cache == map[]
    {
      this.cfg := cfg;
      cache := map[];
    }

    /** `MapName`: the cached name if any, else the resolved one, which is cached. */
    method MapName(n: string, isClass: bool) returns (m: string)
      modifies this
      ensures (m, cache) == NameStep(cfg, old(cache), n, isClass)
    {
      var cacheKey := CacheKey(cfg.caseInsensitive, n, isClass);
      if cacheKey !in cache {
        var res := n;
        var k := Key(cfg.caseInsensitive, n);
        if cfg.nameMapper.Some? && k in cfg.nameMapper.value {
          res := cfg.nameMapper.value[k];
        } else if cfg.partNameMapper.Some? {
          var parts := Split(n, '_');
          res := MapParts(cfg.partNameMapper.value, parts);
        } else if cfg.useDefaultNamer {
          res := DefaultMapName(n);
        }
        cache := cache[cacheKey := res];
      }
      m := cache[cacheKey];
    }

    /** The part-table branch of `MapName`: one builder, one append per part. */
    method MapParts(pt: Table, parts: seq<string>) returns (m: string)
      ensures m == PartsName(cfg, pt, parts)
    {
      m := "";
      for i := 0 to |parts|
        invariant m == PartsName(cfg, pt, parts[..i])
      {
        assert parts[..i + 1][..i] == parts[..i];
        var p := parts[i];
        var k := Key(cfg.caseInsensitive, p);
        if k in pt {
          m := m + pt[k];
        } else if cfg.useDefaultNamer {
          var d := DefaultMapName(p);
          m := m + d;
        }
      }
      assert parts[..|parts|] == parts;
    }

    /** `MapNamePlural`: the class name, then its plural unless it is plural already. */
    method MapNamePlural(n: string) returns (m: string)
      modifies this
      ensures (m, cache) == PluralStep(cfg, old(cache), n)
    {
      m := MapName(n, true);
      if !cfg.plural.isPlural(m) {
        m := cfg.plural.pluralize(m);
      }
    }
  }

  /** An exact-table hit is used verbatim: neither the part table nor the default namer is consulted. */
  lemma ExactEntryWins(cfg: Config, n: string, parts: Option<Table>, useDefault: bool)
    requires cfg.nameMapper.Some? && Key(cfg.caseInsensitive, n) in cfg.nameMapper.value
    ensures Resolve(cfg, n) == cfg.nameMapper.value[Key(cfg.caseInsensitive, n)]
    ensures Resolve(cfg.(partNameMapper := parts, useDefaultNamer := useDefault), n) == Resolve(cfg, n)
  {
  }

  /** The tables of a run hold canonical keys, as every table read by `GetCustomNameMapper` does. */
  ghost predicate ValidConfig(cfg: Config)
  {
    && (cfg.nameMapper.Some? ==> Canonical(cfg.caseInsensitive, cfg.nameMapper.value))
    && (cfg.partNameMapper.Some? ==> Canonical(cfg.caseInsensitive, cfg.partNameMapper.value))
  }

  /** Tables read from rule files make a valid configuration. */
  lemma LoadedConfigValid(cfg: Config, exact: seq<string>, parts: seq<string>)
    requires cfg.nameMapper.Some? ==> ParseRules(cfg.caseInsensitive, exact) == Loaded(cfg.nameMapper.value)
    requires cfg.partNameMapper.Some? ==> ParseRules(cfg.caseInsensitive, parts) == Loaded(cfg.partNameMapper.value)
    ensures ValidConfig(cfg)
  {
    if cfg.nameMapper.Some? {
      ParsedTableCanonical(cfg.caseInsensitive, exact);
    }
    if cfg.partNameMapper.Some? {
      ParsedTableCanonical(cfg.caseInsensitive, parts);
    }
  }

  /**
   * Looking a name's key up in a canonical table is `ContainsKey` through the
   * comparer: the key is stored exactly when some stored key equals the name
   * under the comparer, and then it is that stored key.
   */
  lemma TableLookupFollowsComparer(caseInsensitive: bool, t: Table, n: string)
    requires Canonical(caseInsensitive, t)
    ensures Key(caseInsensitive, n) in t <==> exists k :: k in t && ComparerEquals(caseInsensitive, k, n)
    ensures forall k :: k in t && ComparerEquals(caseInsensitive, k, n) ==> k == Key(caseInsensitive, n)
  {
    forall k | k in t && ComparerEquals(caseInsensitive, k, n)
      ensures k == Key(caseInsensitive, n)
    {
      KeyDecidesComparer(caseInsensitive, k, n);
    }
  }

  /**
   * From rule file to name: with the `-m` table read from `lines`, a name
   * resolves to the value of the first rule line whose key the comparer finds
   * equal to it (under `-i`, key `Foo` serves lookups of `foo`).
   */
  lemma ResolveFindsFirstRule(cfg: Config, lines: seq<string>, i: nat, n: string)
    requires ParseRules(cfg.caseInsensitive, lines).Loaded?
    requires cfg.nameMapper == Some(ParseRules(cfg.caseInsensitive, lines).table)
    requires i < |lines| && Classify(lines[i]).Rule? && ComparerEquals(cfg.caseInsensitive, Classify(lines[i]).key, n)
    requires forall j :: 0 <= j < i ==>
      !(Classify(lines[j]).Rule? && ComparerEquals(cfg.caseInsensitive, Classify(lines[j]).key, n))
    ensures Resolve(cfg, n) == Classify(lines[i]).value
  {
    var ci := cfg.caseInsensitive;
    KeyDecidesComparer(ci, Classify(lines[i]).key, n);
    forall j | 0 <= j < i
      ensures !Defines(ci, lines[j], Key(ci, n))
    {
      if Classify(lines[j]).Rule? {
        KeyDecidesComparer(ci, Classify(lines[j]).key, n);
      }
    }
    FirstRuleWins(ci, lines, i);
  }

  /** A name that no rule line matches under the comparer falls through the `-m` table. */
  lemma ResolveWithoutMatchingRule(cfg: Config, lines: seq<string>, n: string)
    requires ParseRules(cfg.caseInsensitive, lines).Loaded?
    requires cfg.nameMapper == Some(ParseRules(cfg.caseInsensitive, lines).table)
    requires forall j :: 0 <= j < |lines| ==>
      !(Classify(lines[j]).Rule? && ComparerEquals(cfg.caseInsensitive, Classify(lines[j]).key, n))
    ensures Resolve(cfg, n) == Resolve(cfg.(nameMapper := None), n)
  {
    var ci, k := cfg.caseInsensitive, Key(cfg.caseInsensitive, n);
    if cfg.partNameMapper.Some? {
      PartsNameIgnoresExactTable(cfg, cfg.partNameMapper.value, Split(n, '_'));
    }
    assert k !in cfg.nameMapper.value by {
      LoadedKeysDefined(ci, lines);
      if k in cfg.nameMapper.value {
        var j :| 0 <= j < |lines| && Defines(ci, lines[j], k);
        KeyDecidesComparer(ci, Classify(lines[j]).key, n);
      }
    }
  }

  /** The parts are mapped the same whatever the `-m` table holds. */
  lemma {:induction false} PartsNameIgnoresExactTable(cfg: Config, pt: Table, parts: seq<string>)
    ensures PartsName(cfg.(nameMapper := None), pt, parts) == PartsName(cfg, pt, parts)
    decreases |parts|
  {
    if parts != [] {
      PartsNameIgnoresExactTable(cfg, pt, parts[..|parts| - 1]);
    }
  }

  /** Under `-i` the rule `Foo=Bar` serves every spelling of `foo`: `foo`, `FOO`, `fOo`. */
  lemma CaseInsensitiveRuleExample(cfg: Config, lines: seq<string>, n: string)
    requires cfg.caseInsensitive && lines == ["Foo=Bar"]
    requires cfg.nameMapper == Some(map["foo" := "Bar"])
    requires EqualIgnoringCase(n, "foo")
    ensures ParseRules(true, lines) == Loaded(map["foo" := "Bar"])
    ensures Resolve(cfg, n) == "Bar"
  {
    FooRuleLoaded(lines);
    var foo := "foo";
    KeyDecidesComparer(true, n, foo);
    assert Lower(foo) == foo;
  }

  lemma FooRuleLoaded(lines: seq<string>)
    requires lines == ["Foo=Bar"]
    ensures ParseRules(true, lines) == Loaded(map["foo" := "Bar"])
  {
    var k, v := "Foo", "Bar";
    assert lines[0] == k + "=" + v;
    RuleLineClassified(k, v);
    TrimUnpadded(k);
    TrimUnpadded(v);
    assert lines[..0] == [];
    assert Key(true, k) == "foo";
  }

  /** The contributions of two runs of parts concatenate. */
  lemma {:induction false} PartsNameAppend(cfg: Config, pt: Table, a: seq<string>, b: seq<string>)
    ensures PartsName(cfg, pt, a + b) == PartsName(cfg, pt, a) + PartsName(cfg, pt, b)
    decreases |b|
  {
    if b != [] {
      var b' := b[..|b| - 1];
      PartsNameAppend(cfg, pt, a, b');
      assert (a + b)[..|a + b| - 1] == a + b';
    } else {
      assert a + b == a;
    }
  }

  /** Without an exact hit, part mapping distributes over `_`: each side is mapped on its own. */
  lemma PartMappingDistributes(cfg: Config, a: string, b: string)
    requires cfg.partNameMapper.Some?
    requires cfg.nameMapper.Some? ==>
      && Key(cfg.caseInsensitive, a) !in cfg.nameMapper.value
      && Key(cfg.caseInsensitive, b) !in cfg.nameMapper.value
      && Key(cfg.caseInsensitive, a + "_" + b) !in cfg.nameMapper.value
    ensures Resolve(cfg, a + "_" + b) == Resolve(cfg, a) + Resolve(cfg, b)
  {
    assert a + "_" + b == a + ['_'] + b;
    SplitAppend(a, b, '_');
    PartsNameAppend(cfg, cfg.partNameMapper.value, Split(a, '_'), Split(b, '_'));
  }

  /** None of the parts is a key of the part table. */
  predicate NoPartInTable(cfg: Config, pt: Table, parts: seq<string>)
  {
    forall i :: 0 <= i < |parts| ==> Key(cfg.caseInsensitive, parts[i]) !in pt
  }

  /**
   * When no part of the name is in the part table, the parts get their default
   * names and the result is the default name of the whole raw name.
   */
  lemma {:induction false} UnmatchedPartsGetDefaultName(cfg: Config, pt: Table, n: string)
    requires cfg.useDefaultNamer && NoPartInTable(cfg, pt, Split(n, '_'))
    ensures PartsName(cfg, pt, Split(n, '_')) == DefaultName(n)
    decreases |n|
  {
    if '_' in n {
      var i := IndexOf(n, '_');
      var head, rest := n[..i], n[i + 1..];
      SplitAtFirst(n, '_');
      FirstPartAndRest(cfg, pt, head, Split(rest, '_'));
      UnmatchedPartsGetDefaultName(cfg, pt, rest);
      DefaultNameAcrossSeparator(head, '_', rest);
    } else {
      assert [n][..0] == [];
    }
  }

  /** A part list split into its first part and the others. */
  lemma FirstPartAndRest(cfg: Config, pt: Table, head: string, ps: seq<string>)
    requires NoPartInTable(cfg, pt, [head] + ps)
    ensures NoPartInTable(cfg, pt, ps) && Key(cfg.caseInsensitive, head) !in pt
    ensures PartsName(cfg, pt, [head] + ps) == PartName(cfg, pt, head) + PartsName(cfg, pt, ps)
  {
    assert ([head] + ps)[0] == head;
    assert forall j :: 0 <= j < |ps| ==> ps[j] == ([head] + ps)[j + 1];
    PartsNameAppend(cfg, pt, [head], ps);
    SinglePart(cfg, pt, head);
  }

  lemma SinglePart(cfg: Config, pt: Table, p: string)
    ensures PartsName(cfg, pt, [p]) == PartName(cfg, pt, p)
  {
    assert [p][..0] == [];
  }

  /**
   * With the default namer on and no exact hit, a configured but empty part
   * table behaves like no part table (under `-d` it does not: see
   * EmptyPartTableErasesWithoutDefault).
   */
  lemma EmptyPartTableActsAsDefault(cfg: Config, n: string)
    requires cfg.useDefaultNamer && cfg.partNameMapper == Some(map[])
    requires cfg.nameMapper.Some? ==> Key(cfg.caseInsensitive, n) !in cfg.nameMapper.value
    ensures Resolve(cfg, n) == Resolve(cfg.(partNameMapper := None), n) == DefaultName(n)
  {
    UnmatchedPartsGetDefaultName(cfg, map[], n);
  }

  /** Without the default namer, parts that are not in the table contribute nothing. */
  lemma {:induction false} UnmatchedPartsDropped(cfg: Config, pt: Table, parts: seq<string>)
    requires !cfg.useDefaultNamer && NoPartInTable(cfg, pt, parts)
    ensures PartsName(cfg, pt, parts) == ""
    decreases |parts|
  {
    if parts != [] {
      UnmatchedPartsDropped(cfg, pt, parts[..|parts| - 1]);
    }
  }

  /** So `-d` with a part table that matches none of the parts maps the name to the empty string. */
  lemma UnmatchedNameErasedWithoutDefault(cfg: Config, n: string)
    requires !cfg.useDefaultNamer && cfg.partNameMapper.Some?
    requires cfg.nameMapper.Some? ==> Key(cfg.caseInsensitive, n) !in cfg.nameMapper.value
    requires NoPartInTable(cfg, cfg.partNameMapper.value, Split(n, '_'))
    ensures Resolve(cfg, n) == ""
  {
    UnmatchedPartsDropped(cfg, cfg.partNameMapper.value, Split(n, '_'));
  }

  /**
   * Under `-d`, an empty part table is not the same as none: with no exact hit,
   * every name maps to the empty string, where without a part table it is kept.
   */
  lemma EmptyPartTableErasesWithoutDefault(cfg: Config, n: string)
    requires !cfg.useDefaultNamer && cfg.partNameMapper == Some(map[])
    requires cfg.nameMapper.Some? ==> Key(cfg.caseInsensitive, n) !in cfg.nameMapper.value
    ensures Resolve(cfg, n) == ""
    ensures Resolve(cfg.(partNameMapper := None), n) == n
  {
    UnmatchedNameErasedWithoutDefault(cfg, n);
  }

  /**
   * With no applicable table the default namer decides, giving an identifier of
   * letters and digits that does not start lower-case; with `-d` the raw name is kept.
   */
  lemma NoTableFallback(cfg: Config, n: string)
    requires cfg.nameMapper.Some? ==> Key(cfg.caseInsensitive, n) !in cfg.nameMapper.value
    requires cfg.partNameMapper.None?
    ensures !cfg.useDefaultNamer ==> Resolve(cfg, n) == n
    ensures cfg.useDefaultNamer ==> Resolve(cfg, n) == DefaultName(n)
    ensures cfg.useDefaultNamer ==>
      (forall i :: 0 <= i < |Resolve(cfg, n)| ==> IsLetterOrDigit(Resolve(cfg, n)[i])) &&
      (Resolve(cfg, n) != [] ==> !IsLower(Resolve(cfg, n)[0]))
  {
    DefaultNameIsIdentifier(n);
  }

  /** Class names and member names never share a cache entry. */
  lemma CacheKindsSeparate(caseInsensitive: bool, n: string, m: string)
    ensures CacheKey(caseInsensitive, n, true) != CacheKey(caseInsensitive, m, false)
  {
    assert CacheKey(caseInsensitive, n, true)[0] == '*';
    assert CacheKey(caseInsensitive, m, false)[0] == '-';
  }

  /** Two names of one kind share a cache entry exactly when the comparer finds them equal. */
  lemma CacheKeyMatches(caseInsensitive: bool, n: string, m: string, isClass: bool)
    ensures CacheKey(caseInsensitive, n, isClass) == CacheKey(caseInsensitive, m, isClass)
      <==> Key(caseInsensitive, n) == Key(caseInsensitive, m)
    ensures CacheKey(caseInsensitive, n, isClass) == CacheKey(caseInsensitive, m, isClass)
      <==> ComparerEquals(caseInsensitive, n, m)
  {
    KeyDecidesComparer(caseInsensitive, n, m);
    var c := if isClass then "*" else "-";
    var kn, km := CacheKey(caseInsensitive, n, isClass), CacheKey(caseInsensitive, m, isClass);
    assert kn == Key(caseInsensitive, c)[..1] + Key(caseInsensitive, n);
    assert km == Key(caseInsensitive, c)[..1] + Key(caseInsensitive, m);
    if kn == km {
      assert Key(caseInsensitive, n) == kn[1..] == km[1..] == Key(caseInsensitive, m);
    }
  }

  /** A call leaves every earlier entry in place and records the name it returns. */
  lemma NameStepRecords(cfg: Config, c: Cache, n: string, isClass: bool)
    ensures var (m, c1) := NameStep(cfg, c, n, isClass);
      && Extends(c, c1)
      && CacheKey(cfg.caseInsensitive, n, isClass) in c1
      && c1[CacheKey(cfg.caseInsensitive, n, isClass)] == m
  {
  }

  /**
   * Once a name is resolved, every later call with a name the comparer finds
   * equal returns the same result and leaves the cache alone, even under other
   * tables and namer settings.
   */
  lemma ResolvedNameIsStable(cfg: Config, other: Config, c: Cache, n: string, n2: string, isClass: bool)
    requires other.caseInsensitive == cfg.caseInsensitive
    requires Key(cfg.caseInsensitive, n2) == Key(cfg.caseInsensitive, n)
    ensures NameStep(other, NameStep(cfg, c, n, isClass).1, n2, isClass) == NameStep(cfg, c, n, isClass)
  {
    CacheKeyMatches(cfg.caseInsensitive, n, n2, isClass);
  }

  /** Every entry holds what its own raw name resolves to. */
  ghost predicate CacheAgrees(cfg: Config, c: Cache)
  {
    forall key :: key in c ==> |key| >= 1 && c[key] == Resolve(cfg, key[1..])
  }

  /**
   * With case-sensitive keys and a fixed configuration the cache never changes
   * a result: each call returns exactly what the raw name resolves to.
   */
  lemma CacheTransparentWhenCaseSensitive(cfg: Config, c: Cache, n: string, isClass: bool)
    requires !cfg.caseInsensitive && CacheAgrees(cfg, c)
    ensures NameStep(cfg, c, n, isClass).0 == Resolve(cfg, n)
    ensures CacheAgrees(cfg, NameStep(cfg, c, n, isClass).1)
  {
    var key := CacheKey(cfg.caseInsensitive, n, isClass);
    assert key[1..] == n;
  }

  /**
   * With `-i` the cache is case-insensitive too: after `fooBar`, the name
   * `FOOBAR` gets `FooBar` although on its own it resolves to `Foobar`.
   */
  lemma CaseInsensitiveCacheSharesEntries(cfg: Config, first: string, second: string)
    requires cfg.caseInsensitive && cfg.useDefaultNamer
    requires cfg.nameMapper.None? && cfg.partNameMapper.None?
    requires first == "fooBar" && second == "FOOBAR"
    ensures NameStep(cfg, NameStep(cfg, map[], first, false).1, second, false).0 == "FooBar"
    ensures Resolve(cfg, second) == "Foobar"
  {
    CaseVariantsShareKey();
    assert Resolve(cfg, first) == "FooBar" by {
      CamelCaseExample();
    }
    ShoutedNameResolves(cfg);
  }

  /** "fooBar" and "FOOBAR" meet at the same case-insensitive property key. */
  lemma CaseVariantsShareKey()
    ensures CacheKey(true, "fooBar", false) == CacheKey(true, "FOOBAR", false)
  {
    var a, b := "-fooBar", "-FOOBAR";
    forall i | 0 <= i < |a|
      ensures Lower(a)[i] == Lower(b)[i]
    {
      assert ToLower(a[i]) == ToLower(b[i]);
    }
  }

  /** Without tables, an all-capitals name keeps only its initial capital. */
  lemma ShoutedNameResolves(cfg: Config)
    requires cfg.useDefaultNamer && cfg.nameMapper.None? && cfg.partNameMapper.None?
    ensures Resolve(cfg, "FOOBAR") == "Foobar"
  {
    var s := "FOOBAR";
    assert s == ['F'] + s[1..];
    UpperRunLowered('F', s[1..]);
    assert Lower(s[1..]) == "oobar";
  }

  /**
   * `MapNamePlural` leaves the unpluralized class name in the cache: a later
   * class lookup of the same raw name (an entity type reference) gets the
   * singular name, and the set name is its plural.
   */
  lemma PluralSeedsClassEntry(cfg: Config, c: Cache, n: string)
    ensures var (p, c1) := PluralStep(cfg, c, n);
      && NameStep(cfg, c1, n, true) == (NameStep(cfg, c, n, true).0, c1)
      && p == PluralName(cfg.plural, NameStep(cfg, c1, n, true).0)
  {
  }

  /** If the service's plurals are plural, every pluralized set name is plural. */
  lemma PluralNameIsPlural(plu: Pluralizer, m: string)
    requires forall w :: plu.isPlural(plu.pluralize(w))
    ensures plu.isPlural(PluralName(plu, m))
  {
  }
}
