# efrenamer, modelled in Dafny

`efrenamer` rewrites the names in an Entity Framework `.edmx` model, and in its
`.edmx.diagram` companion, so that generated classes and properties get .NET
style names. It renames entity sets (to plurals), entity types, their key
references and properties, entity set mappings, type mappings and their scalar
properties, and the entity type shapes of the diagram. A name is mapped as follows:

- the whole-name table (`-m`) is tried first;
- otherwise the name-part table (`-p`) maps each `_`-separated part;
- otherwise the built-in default namer is used (unless `-d` is given);
- otherwise the name is kept.

Every mapping is memoised in one cache, keyed by `*` (class) or `-` (member)
plus the raw name. The comparer of the tables and of the cache is
case-insensitive under `-i`. Only the entities selected by `-t`/`-tp` are
touched.

The model, module by module:

- `Common`: `Option`.
- `Text`: ASCII character classes and case mapping, `Split`, `Join`, `Trim`,
  with their algebra.
- `DefaultNamer`: the built-in namer as a specification function `DefaultName`
  and the loop `DefaultMapName` proved equal to it.
- `Rules`: reading a rule file (`name=value` lines) into a table. The
  comparer is modelled by storing canonical keys (`Key`: lower-cased when
  case-insensitive).
- `Selection`: `CanProcess`, as a loop proved equal to the predicate `Selected`.
- `NameMapper`:
  - `Resolve`, the table / part table / default namer precedence;
  - `NameStep`, one memoised `MapName` call on a cache value;
  - the class `Renamer`, which holds the configuration and the cache that its
    methods update.
- `Walk`: the document as values, and the renaming walk as a fold over each
  element list that threads the cache. An exception aborts a pass (`Aborted`).
  It also holds what a completed walk guarantees.
- `Documents`: the loaded documents as classes over arrays, and the walk of
  `Main` as methods that rewrite those arrays in place. Each method is proved
  equal to the fold of `Walk`. `Run` puts the two passes together: the model is
  saved only if its pass completes, and the diagram pass runs (and is saved) only
  after that.

Three behaviours of the code that are easy to misread, and that the model follows:

- `MapNamePlural` (Program.cs:239-247) replaces a mapped name by its plural.
  It does not append anything to it.
- An entity set's `EntityType` reference is rewritten only when the set
  itself is selected: the `continue` at Program.cs:114 skips both attributes.
- Only empty lines and lines starting with `#` are skipped in a rule file
  (Program.cs:352). A line made only of spaces is treated like any other line
  without `=` (see Findings).

## Model

| member | source | states |
|---|---|---|
| `DefaultNamer.DefaultMapName` | Program.cs:315-341 | the loop computes exactly `DefaultName`, the left-to-right casing rule over the letters and digits of the name |
| `DefaultNamer.NameFromKeepsLettersAndDigits` | Program.cs:318-339 | the result has one character per letter or digit of the input, equal to it up to case, and nothing else |
| `DefaultNamer.CasingAt` | Program.cs:321-336 | each kept character is upper-cased after a start or a non-alphanumeric character, and after a lower-case letter when it is itself upper-case; otherwise it is lower-cased |
| `DefaultNamer.StartsUpperAtBoundary` | Program.cs:323-326 | a name that begins at a word boundary never begins with a lower-case letter |
| `DefaultNamer.SeparatorActsAsStart` | Program.cs:323-326 | after a non-alphanumeric character the rest is named as if it began the input |
| `DefaultNamer.NameFromAcrossSeparator` | Program.cs:318-339 | naming distributes over a non-alphanumeric separator, from any previous character |
| `DefaultNamer.DefaultNameAcrossSeparator` | Program.cs:318-339 | `DefaultName(a + [c] + b) == DefaultName(a) + DefaultName(b)` for a separator `c` |
| `DefaultNamer.DefaultNameIsIdentifier` | Program.cs:315-341 | the default name is all letters and digits and does not start lower-case |
| `DefaultNamer.NameFromAppend` | Program.cs:318-339 | naming a concatenation names the second part as cased from the last character of the first |
| `DefaultNamer.LowerRunKept` | Program.cs:333-336 | after a letter or digit, a run of lower-case letters is kept unchanged |
| `DefaultNamer.UpperRunLowered` | Program.cs:333-336 | after a capital, a run of capitals is lower-cased |
| `DefaultNamer.LowerWordCapitalised` | Program.cs:321-336 | a lower-case word gets a capital initial and keeps the rest |
| `DefaultNamer.CamelCaseWords` | Program.cs:329-332 | a lower-case word followed by a capitalised lower-case word becomes both words capitalised (`fooBar` to `FooBar`) |
| `DefaultNamer.SnakeCaseWords` | Program.cs:315-341 | lower-case words joined by `_` (`order_line`) become their capitalised forms concatenated (`OrderLine`) |
| `DefaultNamer.WordExamples` | Program.cs:321-326 | single lower-case words are capitalised |
| `DefaultNamer.AcronymExample` | Program.cs:329-336 | `ID` becomes `Id`: a capital after a capital is lower-cased |
| `DefaultNamer.CamelCaseExample` | Program.cs:329-332 | `fooBar` becomes `FooBar` |
| `Text.ToUpper` | Program.cs:325 | a small letter becomes its own capital (the same position in the alphabet); every other character is kept |
| `Text.ToLower` | Program.cs:335 | a capital becomes its own small letter (the same position in the alphabet); every other character is kept |
| `Text.LowerDecidesEqualIgnoringCase` | Program.cs:30-37 | two strings fold to the same lower-case form exactly when `EqualIgnoringCase` holds: same length, and at each position the same character or the same letter in the other case |
| `Text.JoinSplit` | Program.cs:353 | joining the fields of a split with the separator gives back the line |
| `Text.SplitFieldsHaveNoSeparator` | Program.cs:353 | no field of a split contains the separator |
| `Text.SplitJoin` | Program.cs:284 | splitting a join of separator-free parts gives back the parts |
| `Text.SplitAppend` | Program.cs:284 | the parts of `a_b` are the parts of `a` followed by those of `b` |
| `Text.TrimmedEnds` | Program.cs:358-359 | a trimmed field is the slice of the field left after dropping its leading and trailing white space: everything dropped is white space, and the slice has white space on neither end |
| `Text.TrimIdempotent` | Program.cs:358-359 | trimming twice is trimming once |
| `Text.TrimUnpadded` | Program.cs:358-359 | a field without white space at either end is left as it is by trimming |
| `Rules.Key` | Program.cs:30-37 | a string's canonical key is equal to it under the comparer |
| `Rules.KeyDecidesComparer` | Program.cs:30-37 | two strings have the same key exactly when the comparer's `Equals` holds: equality ignoring case under `-i`, ordinal equality otherwise |
| `Rules.KeyIdempotent` | Program.cs:25-46 | a canonical key is its own key, so a stored key finds itself under the comparer |
| `Rules.GetCustomNameMapper` | Program.cs:343-372 | the loop over the lines gives exactly `ParseRules`: the table, or the index of the line that aborts the load |
| `Rules.FailureSticks` | Program.cs:350-359 | once a line aborts the load, no later line changes the outcome |
| `Rules.RuleKeysLoaded` | Program.cs:360-367 | every key that a rule line defines is in a loaded table |
| `Rules.LoadedKeysDefined` | Program.cs:360-367 | a loaded table holds no key that no rule line defines |
| `Rules.FirstRuleWins` | Program.cs:360-367 | of several lines defining one key (under the comparer), the first line's value is kept |
| `Rules.ParsedTableCanonical` | Program.cs:345 | every key of a loaded table is canonical, as in a dictionary built with the comparer |
| `Rules.ParseFailsAtFirstMalformed` | Program.cs:352-359 | the load fails exactly when some non-skipped line has no `=`, and then at the first such line |
| `Rules.ExtraFieldsIgnored` | Program.cs:353-359 | `k=v=rest` defines the same trimmed rule as `k=v` |
| `Rules.RuleLineClassified` | Program.cs:353-359 | a line `k=v` that does not start with `#` and whose fields have no `=` is the rule of trimmed `k` to trimmed `v` |
| `Rules.NoSeparatorMalformed` | Program.cs:353-359 | a line that is not skipped and has no `=` has fewer than two fields and aborts the load |
| `Rules.LoadedStep` | Program.cs:350-367 | when a file loads, its last line is not malformed and adds its rule exactly when its key is not yet taken |
| `Rules.SkippedLineChangesNothing` | Program.cs:352 | inserting an empty or `#` line changes neither the outcome nor the table |
| `Rules.MalformedLineAborts` | Program.cs:353-359 | a rule file with `Order` or a line of spaces on its second line fails at that line, while the lenient reading keeps `Customer=Client` |
| `Rules.LenientIsParseOfWellFormed` | Program.cs:352-367 | the corrected reading is the original reading of the file with its malformed lines removed |
| `Rules.LenientAgreesWithParse` | Program.cs:343-372 | where the original reading succeeds, the corrected one gives the same table |
| `Selection.CanProcess` | Program.cs:216-228 | the loop answers exactly `Selected`: the wildcard in either set, some prefix of the name, or the exact name |
| `Selection.EmptySelectsNothing` | Program.cs:216-228 | with no `-t` and no `-tp` nothing is renamed |
| `Selection.WildcardSelectsAll` | Program.cs:218-219 | `*` as a name or a prefix selects every name |
| `Selection.EmptyPrefixSelectsAll` | Program.cs:220-226 | the empty prefix selects every name |
| `Selection.SelectedWithoutWildcard` | Program.cs:220-227 | without the wildcard, a name is selected if and only if it is listed or extends a listed prefix |
| `Selection.SelectionMonotone` | Program.cs:216-228 | more names or prefixes never deselect a name |
| `Selection.ExactNamesAreCaseSensitive` | Program.cs:227 | `-t Person` does not select `person` |
| `NameMapper.Renamer.constructor` | Program.cs:262 | a run starts with an empty cache |
| `NameMapper.Renamer.MapName` | Program.cs:270-313 | the name and the new cache are `NameStep`: a cached name is returned unchanged; otherwise the name is resolved and cached under its kind |
| `NameMapper.Renamer.MapParts` | Program.cs:282-301 | the loop over the parts gives `PartsName`, the in-order concatenation of each part's contribution |
| `NameMapper.Renamer.MapNamePlural` | Program.cs:239-247 | the class name is mapped (and cached), then replaced by its plural unless it is already plural |
| `NameMapper.ExactEntryWins` | Program.cs:278-281 | a whole-name entry decides the name whatever the part table or `-d` |
| `NameMapper.LoadedConfigValid` | Program.cs:80-87 | tables read from rule files hold only canonical keys, so they form a valid configuration |
| `NameMapper.TableLookupFollowsComparer` | Program.cs:278 | in a canonical table, the name's key is stored exactly when some stored key equals the name under the comparer, and that stored key is the name's key |
| `NameMapper.ResolveFindsFirstRule` | Program.cs:278-281 | with the `-m` table read from a rule file, a name resolves to the value of the first rule line whose key the comparer finds equal to the name |
| `NameMapper.ResolveWithoutMatchingRule` | Program.cs:278-308 | a name that no rule line matches under the comparer resolves as if there were no `-m` table |
| `NameMapper.PartsNameIgnoresExactTable` | Program.cs:282-301 | the part mapping of a name does not depend on the `-m` table |
| `NameMapper.CaseInsensitiveRuleExample` | Program.cs:278-281 | under `-i`, the rule `Foo=Bar` is loaded under key `foo` and resolves every spelling of `foo` (`foo`, `FOO`, ...) to `Bar` |
| `NameMapper.PartsNameAppend` | Program.cs:286-300 | the contributions of consecutive runs of parts concatenate |
| `NameMapper.PartMappingDistributes` | Program.cs:282-301 | with a part table, `a_b` maps to the mapping of `a` followed by that of `b` |
| `NameMapper.UnmatchedPartsGetDefaultName` | Program.cs:292-297 | when no part is in the part table, the parts together get the default name of the whole name |
| `NameMapper.EmptyPartTableActsAsDefault` | Program.cs:282-308 | with the default namer on and no exact hit, an empty part table behaves like no part table: the name gets its default name |
| `NameMapper.EmptyPartTableErasesWithoutDefault` | Program.cs:282-308 | under `-d` with no exact hit, an empty part table maps every name to the empty string, while without a part table the name is kept |
| `NameMapper.UnmatchedPartsDropped` | Program.cs:292-298 | with `-d`, parts that are not in the table contribute nothing |
| `NameMapper.UnmatchedNameErasedWithoutDefault` | Program.cs:282-300 | with `-d` and a part table, a name none of whose parts is in it maps to the empty string |
| `NameMapper.NoTableFallback` | Program.cs:302-308 | with no applicable table the name is kept under `-d`, and otherwise gets its default name, which is an identifier |
| `NameMapper.CacheKindsSeparate` | Program.cs:274 | a class key and a member key never collide |
| `NameMapper.CacheKeyMatches` | Program.cs:262-275 | two names of one kind share a cache entry if and only if the comparer's `Equals` holds for them |
| `NameMapper.NameStepRecords` | Program.cs:309-312 | a mapping keeps every earlier cache entry and leaves its result cached under the name's key |
| `NameMapper.ResolvedNameIsStable` | Program.cs:275-312 | once mapped, a name (or any name the comparer finds equal) maps to the same result again, whatever the tables are now |
| `NameMapper.CacheTransparentWhenCaseSensitive` | Program.cs:270-313 | with a case-sensitive comparer the cache never changes a result: every lookup gives the resolved name |
| `NameMapper.CaseInsensitiveCacheSharesEntries` | Program.cs:262-312 | under `-i`, `FOOBAR` mapped after `fooBar` gets `FooBar`, although on its own it resolves to `Foobar` |
| `NameMapper.CaseVariantsShareKey` | Program.cs:30-38 | `fooBar` and `FOOBAR` meet at one case-insensitive member cache key |
| `NameMapper.ShoutedNameResolves` | Program.cs:302-308 | with no table and the default namer on, `FOOBAR` resolves to `Foobar` |
| `NameMapper.PluralSeedsClassEntry` | Program.cs:239-247 | after a plural mapping, the class lookup of the same name gives the singular, and the set name is its plural |
| `NameMapper.PluralNameIsPlural` | Program.cs:242-245 | if the service's plurals are plural, every set name it produces is plural |
| `Walk.FoldAbortSticks` | Program.cs:55-207 | an exception on one element aborts the pass |
| `Walk.FoldEstablishes` | Program.cs:110-181 | what each step establishes against its cache holds of every element against the final cache, as the cache only grows |
| `Walk.NamesMapped` | Program.cs:127-135 | each key reference and property is renamed to what the cache holds for it at the end |
| `Walk.EntitySetsRenamed` | Program.cs:110-119 | after the entity set pass, every selected set has the plural of its class name and refers to its type's class name; the others are unchanged |
| `Walk.EntityTypesRenamed` | Program.cs:121-136 | the entity type pass never aborts and renames every selected type, its key references and properties |
| `Walk.TypeMappingsRenamed` | Program.cs:150-157 | every type mapping of a completed pass refers to its type's class name and maps its scalar properties |
| `Walk.SetMappingsRenamed` | Program.cs:141-161 | after the set mapping pass, every selected set mapping is renamed with its type mappings; the others are unchanged |
| `Walk.ShapesRenamedByDiagram` | Program.cs:171-181 | after the diagram pass, every selected shape refers to its type's class name; the others are unchanged |
| `Walk.ModelPassRenames` | Program.cs:110-161 | a completed model pass rewrote every element as the cache it leaves says |
| `Walk.WalkRenames` | Program.cs:110-181 | the model and the diagram both agree with the one cache the run ends with |
| `Walk.SetReferenceFollowsType` | Program.cs:114-117 | a selected set's type reference names the new class name of a selected entity type that the comparer finds equal to its local name |
| `Walk.SetNameIsPluralOfType` | Program.cs:115-125 | a selected set's new name is the plural of the new name of a selected type of the same name |
| `Walk.SetMappingFollowsSet` | Program.cs:115-149 | an entity set and its set mapping, both selected, get the same new name |
| `Walk.TypeMappingFollowsType` | Program.cs:152-153 | a type mapping of a selected set mapping names the new class name of its entity type |
| `Walk.ScalarPropertyFollowsProperty` | Program.cs:131-157 | a scalar property mapping gets the same new name as the property it maps |
| `Walk.KeyFollowsProperty` | Program.cs:127-135 | a key reference gets the same new name as the property it refers to |
| `Walk.ShapeFollowsType` | Program.cs:177-179 | a selected diagram shape names the new class name of the entity type it draws |
| `Walk.UnselectedUnchanged` | Program.cs:114-148 | entity sets, types and set mappings outside the selection come out unchanged |
| `Walk.ModelPassAgrees` | Program.cs:110-161 | with a case-sensitive comparer, the model pass caches only resolved names |
| `Walk.MappedToResolves` | Program.cs:270-313 | in such a run, a cached name is the resolved one |
| `Walk.CaseSensitiveModelResolves` | Program.cs:110-136 | with a case-sensitive comparer, every selected type and property gets its resolved name, and every selected set gets the plural of its resolved name and refers to its type's resolved name |
| `Documents.ModelDocument.constructor` | Program.cs:99-109 | a loaded model holds the given namespace and element lists |
| `Documents.DiagramDocument.constructor` | Program.cs:166-169 | a loaded diagram holds the given shapes |
| `Documents.MapNames` | Program.cs:254-260 | mapping a list of member names in order is the fold of `MapName` over it |
| `Documents.RenameEntitySet` | Program.cs:113-117 | one entity set is rewritten as `EntitySetStep` says, and fails exactly when its step aborts |
| `Documents.RenameEntityType` | Program.cs:122-135 | one entity type is rewritten as `EntityTypeStep` says |
| `Documents.RenameTypeMapping` | Program.cs:150-157 | one type mapping is rewritten as `TypeMappingStep` says, and fails on a short reference or a missing fragment |
| `Documents.RenameSetMapping` | Program.cs:147-158 | one set mapping is rewritten as `SetMappingStep` says |
| `Documents.RenameShape` | Program.cs:175-179 | one shape is rewritten as `ShapeStep` says |
| `Documents.RenameEntitySets` | Program.cs:110-119 | the array now holds the fold of the entity set step over its old contents, or the pass reports the abort |
| `Documents.RenameEntityTypes` | Program.cs:121-136 | the array now holds the fold of the entity type step over its old contents |
| `Documents.RenameSetMappings` | Program.cs:141-161 | the array now holds the fold of the set mapping step over its old contents, or the pass reports the abort |
| `Documents.RenameShapes` | Program.cs:171-181 | the array now holds the diagram pass over its old contents, or the pass reports the abort |
| `Documents.Run` | Program.cs:110-184 | with tables as read from rule files, the model is saved exactly when `RenameModel` completes, holding its result; the diagram is saved exactly when it exists, the model was saved and `RenameDiagram` completes from the model pass's cache |

## Left out

- Command-line parsing (Program.cs:57-95), the backup copies, file loading and
  saving, and console output. A run's settings are a `Config` value. Rule files
  are sequences of lines. Documents are given as values and loaded into arrays.
  "Saved" is a result flag of `Run`.
- The `-i` flag is fixed for the whole run. The code's comparer reads the
  setting at each comparison, so a rule file read before `-i` on the command
  line is compared case-sensitively while it is being loaded. This is not
  modelled.
- The pluralization service (Program.cs:50) is a pair of uninterpreted
  functions (`Pluralizer`).
- Characters are ASCII. `Char.IsLetterOrDigit`, `Char.IsUpper`, `Char.IsLower`,
  the invariant case mappings and `Trim`'s white space are modelled for ASCII
  only.
- The case-insensitive comparison `string.Compare(x, y, true)` (Program.cs:34)
  is modelled as ASCII case folding followed by ordinal equality
  (`EqualIgnoringCase`). Characters that a culture-sensitive comparison
  ignores are not modelled: .NET finds `"a\u0001"` equal to `"a"`, and the
  model does not.
- The case-sensitive comparison `string.Compare(x, y, false)` (Program.cs:36)
  is culture-sensitive in .NET and is modelled as ordinal equality.
  `StartsWith` (Program.cs:222, 352) is culture-sensitive too and is modelled
  as a literal prefix test.
- `CaseInsesitiveComparer.GetHashCode` (Program.cs:39-43) is not modelled:
  keys are stored in canonical form instead of being hashed.
- `AddToCache` (Program.cs:264-268) is never called and is left out.
- The XML structure is flattened:
  - the entity sets of all entity containers form one list, as do the set
    mappings of all mappings and containers, and the shapes of all diagrams;
  - only the attributes that are renamed are kept;
  - an absent `Key` element is an empty list of key references.
- Attributes that the walk reads are assumed present. A missing attribute
  (a null reference in the code) is not modelled.
- Exceptions are modelled only where the code raises them on well-formed
  documents. Two come from the walk, and each aborts its pass (`Aborted`):
  - `Substring` on a reference shorter than the namespace plus its dot;
  - a type mapping without a `MappingFragment`.

  The third is a rule line without `=`. It is raised while the rule file is
  read (Program.cs:82, 86), inside the `try` of Program.cs:55, so the run ends
  before any file is copied or touched. `ParseRules` reports it as `Failed`.
  `Run` never sees it, because `Run` takes a `Config` whose tables are already
  loaded.
- When a pass aborts, `Run` says nothing about the arrays' contents. The
  in-memory document is discarded unsaved, as in the code.
- The diagram's own namespace and the document namespaces are not modelled.
  References are checked only against the code namespace's length, as in the
  code.
- The `CanProcess(XElement)` overload (Program.cs:210-214) is modelled by
  passing the attribute's value to the string overload.

## Findings

| source | as written | input that shows it | evidently intended | confidence | as-written member | corrected member |
|---|---|---|---|---|---|---|
| Program.cs:353-359 | a line without `=` (or made only of spaces) is reported as incorrect, then `parts[1]` is read anyway, which throws and aborts the whole run | a rule file whose lines are `Customer=Client` and `Order` | report the line and skip it, keeping the other rules | not executed | `Rules.MalformedLineAborts` | `Rules.LenientIsParseOfWellFormed` |
