# SwiftLint configuration resolution, modelled in Dafny

This project models the configuration layer of SwiftLint:

- **Rule activation** (`Configuration.swift`). The failable initialiser turns the declared
  `disabled_rules`, `opt_in_rules` and `whitelist_rules` lists and the `enableAllRules` flag into
  the active rule list. It resolves deprecated aliases and drops disabled ids that name no
  configured rule. It fails on a known rule disabled twice, and on a whitelist combined with
  disabled or opt-in entries. It then applies the precedence: enable-all, then whitelist, then
  disabled/opt-in.
- **The dictionary initialiser**. It picks the lists, the reporter, the warning threshold and the
  cache path out of the parsed configuration file, with their defaults.
- **Equality** of configurations, and the **selection of lintable paths** from `included` and
  `excluded`.
- **Nested-configuration lookup** (`Configuration+Nesting.swift`). It walks from a directory up
  toward the root path and merges in the first configuration file that is not the configuration's
  own. `HashableRule` compares and hashes rules by identifier only.

The modelled code is pure, so the model uses datatypes, functions and lemmas. Swift's `filter`,
`map` and `flatMap` become `Seqs.Filter`, sequence comprehensions and `Seqs.FlatMap`.
`Seqs.KeepsExactly(r, s, p)` says that `r` keeps, in order, exactly the occurrences in `s` that
satisfy `p`, and `Seqs.FilterIsUnique` shows that this pins the result down.

Collaborators outside the modelled files are fields of function type:
- `Rules.RuleList.configure` stands for `configuredRules(with:)`.
- `Config.FileManager` stands for `filesToLint`, `isSwiftFile` and `isFile`.
- `Nesting.Environment` holds the existing configuration files, the cache (a plain map), the
  file-loading initialiser and `merge(with:)`.

In the lookup, a path is an absolute path written as its list of components, and `[]` is "/".

Some of the code's behaviour is easy to miss, and the model follows the code here:
- Duplicates are only checked among disabled ids that name a configured rule, so an unknown id
  listed twice is accepted (`Config.UnknownDuplicatesAreDropped`).
- The enable-all branch comes before the whitelist conflict check. With enable-all, a whitelist
  next to disabled or opt-in entries does not fail.
- The stored `disabledRules` field is the alias-resolved list before validation. Unknown ids are
  dropped only from the check, not from the field.
- The lookup reads the cache under the directory's own absolute path
  (`Configuration+Nesting.swift:23-24`). The file-loading initialiser stores configurations under
  the configuration file's path (`Configuration.swift:204`). The model keys the cache exactly as
  the lookup reads it.

## Model

| member | source | states |
|---|---|---|
| `Config.ResolveAliases` | Source/SwiftLintFramework/Models/Configuration.swift:50-56 | every declared id is replaced by `identifier(for:)` when the catalogue knows it and kept unchanged otherwise; the order and length are kept |
| `Config.ResolveAlias` | Source/SwiftLintFramework/Models/Configuration.swift:50-52 | an alias the catalogue knows becomes its identifier, anything else is kept; with a canonical catalogue the result of a known alias is itself a canonical identifier |
| `Config.ResolveAliasesIdempotent` | Source/SwiftLintFramework/Models/Configuration.swift:50-56 | for a catalogue that maps canonical ids to themselves, resolving an already resolved list changes nothing |
| `Config.AliasBehavesAsIdentifier` | Source/SwiftLintFramework/Models/Configuration.swift:50-56 | a deprecated alias in `disabled_rules` gives exactly the same result as the identifier it resolves to |
| `Config.ValidateRuleIdentifiers` | Source/SwiftLintFramework/Models/Configuration.swift:235-249 | returns the configured rules' identifiers, one per rule and in the rules' order; an id is in the result iff some configured rule has that id |
| `Config.ConfiguredRulesOrDefault` | Source/SwiftLintFramework/Models/Configuration.swift:46-48 | the given configured rules when an array is passed, even an empty one, else the catalogue's rules built from an empty dictionary, else the empty list |
| `Config.ValidDisabledRules` | Source/SwiftLintFramework/Models/Configuration.swift:59-61 | the valid disabled ids keep, in order and with their multiplicity, exactly the resolved disabled ids that name some configured rule |
| `Seqs.FilterIsUnique` | Source/SwiftLintFramework/Models/Configuration.swift:61 | any list that keeps exactly the occurrences satisfying the predicate, in order, is the filtered list |
| `Config.ContainsDuplicateIdentifiers` | Source/SwiftLintFramework/Models/Configuration.swift:251-266 | true iff some identifier occurs twice in the list |
| `Seqs.ElementsCountDetectsRepeat` | Source/SwiftLintFramework/Models/Configuration.swift:253 | `Set(ids).count` is at most `ids.count`, and differs from it iff some element is repeated |
| `Config.Activate` | Source/SwiftLintFramework/Models/Configuration.swift:28-99 | fails iff a valid disabled id is repeated, or (without enable-all) the whitelist is non-empty next to a non-empty disabled or opt-in list; on success the declared lists are the alias-resolved ones and the other fields are the arguments; `rules` is always an ordered sublist of the configured rules; it equals them with enable-all; it keeps exactly the whitelisted rules in the whitelist branch; otherwise it keeps exactly the rules that are not validly disabled and are opted in or not opt-in |
| `Config.DisablingBeatsOptingIn` | Source/SwiftLintFramework/Models/Configuration.swift:83-89 | in the default branch a known disabled rule is inactive even when opted in, and an opt-in rule missing from `opt_in_rules` is inactive |
| `Config.WhitelistConflictFails` | Source/SwiftLintFramework/Models/Configuration.swift:72-78 | without enable-all, a non-empty whitelist with any disabled or opt-in entry fails, even one that names no rule |
| `Config.UnknownDuplicatesAreDropped` | Source/SwiftLintFramework/Models/Configuration.swift:59-66 | an unknown id listed twice under `disabled_rules` does not make initialisation fail |
| `Config.KnownDuplicatesFail` | Source/SwiftLintFramework/Models/Configuration.swift:63-66 | a known rule disabled twice, by name or by alias, makes initialisation fail, with or without enable-all |
| `Config.FromDict` | Source/SwiftLintFramework/Models/Configuration.swift:124-174 | fails iff the rule options cannot be configured, a known disabled rule is listed twice, or (without enable-all) a non-empty whitelist sits next to a non-empty disabled or opt-in list; on success `disabled_rules`, `whitelist_rules`, `included` and `excluded` are read from their own keys (the rule lists alias-resolved); `opt_in_rules` wins over `enabled_rules`, which is read only when `opt_in_rules` is absent; the reporter is the dictionary's string or else "xcode"; an explicit cache path wins over the dictionary's; the warning threshold is the dictionary's integer; rootPath and configurationPath stay nil; the rules are an ordered sublist of the configured rules, all of them with enable-all, exactly the whitelisted ones in the whitelist branch, and exactly the not-validly-disabled ones that are opted in or not opt-in otherwise |
| `Config.EmptyDictionaryGivesDefaults` | Source/SwiftLintFramework/Models/Configuration.swift:124-174 | an empty configuration file succeeds with reporter "xcode", empty lists, no threshold and no cache path; the active rules are exactly the non-opt-in rules (all rules with enable-all) |
| `Config.Equals` | Source/SwiftLintFramework/Models/Configuration.swift:306-313 | two configurations are equal iff they agree once warningThreshold, cachePath, rootPath and the three declared lists are copied from one to the other |
| `Config.StringArray` | Source/SwiftLintFramework/Models/Configuration.swift:126-128 | a missing key, an integer or another non-string value gives []; a lone string gives a one-element list; a list whose items are all strings gives those strings in order; a list with any other item gives [] |
| `Config.StringListReadsBack` | Source/SwiftLintFramework/Models/Configuration.swift:126-128 | a YAML list of strings is read back as exactly that list |
| `Config.EqualsIgnoresUnlistedFields` | Source/SwiftLintFramework/Models/Configuration.swift:306-313 | changing warningThreshold, cachePath, rootPath or the three declared lists of a configuration leaves it equal to the original |
| `Config.EqualsIsEquivalence` | Source/SwiftLintFramework/Models/Configuration.swift:306-313 | equality is reflexive, symmetric and transitive |
| `Config.EqualsIgnoresRootPath` | Source/SwiftLintFramework/Models/Configuration.swift:311 | configurations that differ only in rootPath compare equal, and the corrected equality tells them apart |
| `Config.EqualsWithRootPath` | Source/SwiftLintFramework/Models/Configuration.swift:306-313 | the corrected equality holds iff the as-written equality holds and the root paths agree |
| `Config.LintablePaths` | Source/SwiftLintFramework/Models/Configuration.swift:215-228 | a Swift file that exists gives just itself; otherwise the result keeps, in order and with every repetition, exactly those paths of the searched path's files (only when `included` is empty) followed by the included entries' files that come from no excluded entry |
| `Seqs.FlatMapConcatenates` | Source/SwiftLintFramework/Models/Configuration.swift:221-226 | `flatMap` maps the empty list to [], a single element to its own files, and a concatenation to the concatenation of the results |
| `Nesting.ConfigurationForPath` | Source/SwiftLintFramework/Extensions/Configuration+Nesting.swift:12-36 | the result is `self`, or `self` merged with the configuration of exactly one directory on the path that is not the root path and holds a configuration file other than `self`'s own; the recursion ends because each step removes one path component |
| `Nesting.LookupAtRootIsSelf` | Source/SwiftLintFramework/Extensions/Configuration+Nesting.swift:13-15 | looking up the root path returns `self` unchanged |
| `Nesting.LookupSkipsLevels` | Source/SwiftLintFramework/Extensions/Configuration+Nesting.swift:29-32 | directories that are neither the root path nor hold a nested configuration are passed over, and the lookup equals the lookup from the first ancestor that is |
| `Nesting.LookupAppliesNearest` | Source/SwiftLintFramework/Extensions/Configuration+Nesting.swift:20-32 | the nearest directory holding a configuration file other than `self`'s is merged in, from the cache when it has an entry and freshly loaded otherwise, and the search goes no further |
| `Nesting.LookupStopsAtRootPath` | Source/SwiftLintFramework/Extensions/Configuration+Nesting.swift:12-32 | reaching the root path before any nested configuration returns `self` |
| `Nesting.LookupWithoutNestedConfigIsSelf` | Source/SwiftLintFramework/Extensions/Configuration+Nesting.swift:29-35 | with no nested configuration between the path and "/", the result is `self` |
| `Nesting.CacheIsTransparent` | Source/SwiftLintFramework/Extensions/Configuration+Nesting.swift:23-25 | a cache holding only what loading would produce gives the same result as an empty cache |
| `Nesting.NestedConfig` | Source/SwiftLintFramework/Extensions/Configuration+Nesting.swift:23-25 | the configuration cached under the directory's path when there is one, else the configuration loaded from the directory's configuration file; with a cache that holds only what loading would produce, always the loaded one |
| `Nesting.HashableEqual` | Source/SwiftLintFramework/Extensions/Configuration+Nesting.swift:41-45 | two wrapped rules are equal iff the rules agree once their opt-in flag and options are set aside, that is iff their identifiers agree |
| `Nesting.HashableEqualityIsByIdentifier` | Source/SwiftLintFramework/Extensions/Configuration+Nesting.swift:41-45 | two wrapped rules are equal whatever their options when their identifiers agree, and unequal when they differ |
| `Nesting.HashableEqualIsEquivalence` | Source/SwiftLintFramework/Extensions/Configuration+Nesting.swift:41-45 | `HashableRule` equality is reflexive, symmetric and transitive |
| `Nesting.EqualHashableRulesHashEqually` | Source/SwiftLintFramework/Extensions/Configuration+Nesting.swift:47-49 | equal wrapped rules have equal hash values, for any string hash |
| `Nesting.HashableHashValue` | Source/SwiftLintFramework/Extensions/Configuration+Nesting.swift:47-49 | every wrapped rule equal to this one hashes to the same value |

## Left out

- The file-loading initialiser `init(path:rootPath:optional:quiet:enableAllRules:cachePath:)` is not modelled (Configuration.swift:176-213). It covers YAML parsing, the existence check, `fatalError` on a missing required file, the late assignment of `rootPath` and `configurationPath`, and `setCached`. It is I/O and process termination. In the lookup it is the `load` field of `Nesting.Environment`.
- Diagnostics are not modelled because they only log and do not change the result. These are `queuedPrintError`, the pinned-version warning (lines 41-44), the invalid-key report (lines 135-139) and `warnAboutDeprecations` (lines 268-302).
- The process-wide cache and its lock (`getCached`/`setCached`) are not modelled; that is concurrency. The lookup takes the cache as a plain map.
- `absolutePathRepresentation` and `deletingLastPathComponent` are not modelled. Paths are absolute lists of components, so a relative path given to the lookup is not modelled. For a relative path the ascent at Configuration+Nesting.swift:30-31 may not end: as the code reads (not executed), `"a"` goes up to `""`, and `""` goes up to itself and is never `"/"`. So without a configuration file on the way and without reaching the root path, the recursion would not stop. The model's termination by path length relies on paths being absolute.
- Strings are compared code point by code point, not by Swift's Unicode canonical equivalence (under which "é" and "e\u{301}" are equal). This applies to rule identifiers, aliases, dictionary keys and paths: the `Set` count at Configuration.swift:253, the `contains` calls at lines 61, 81, 86-87 and 227, `identifier(for:)`, `dict[...]`, the `==` at lines 306-313 and the path comparisons at Configuration+Nesting.swift:13, 21 and 30.
- `RuleList.configuredRules(with:)` and its per-rule option parsing are not part of this model. They are the `configure` field of `Rules.RuleList`.
- `merge(with:)` is not modelled. Its only text in the file is commented out (Configuration+Nesting.swift:52-94), so it is the `merge` field of `Nesting.Environment`.
- `lintableFiles(inPath:)` (line 231) is not modelled; it only builds `File` objects from the paths.
- The `[Rule] ==` operator (`isEqualTo`) is not part of this model. `Config.Equals` compares rules as whole values: identifier, opt-in flag and options.
- The `[String].array(of:)` helper is not part of this model. `Config.StringArray` assumes it keeps a list of strings, turns a lone string into a one-element list, and treats anything else as absent.
- YAML values are reduced to strings, integers, lists and "other". Bridging casts between number types are not modelled.

## Findings

| source | as written | input that shows it | evidently intended | confidence | as-written member | corrected member |
|---|---|---|---|---|---|---|
| Source/SwiftLintFramework/Models/Configuration.swift:311 | `lhs.rootPath == lhs.rootPath` compares the left operand with itself, so the conjunct is always true | two configurations identical except that one has rootPath "/a" and the other "/b" compare equal | `lhs.rootPath == rhs.rootPath` | medium, not executed | `Config.EqualsIgnoresRootPath` | `Config.EqualsWithRootPath` |
