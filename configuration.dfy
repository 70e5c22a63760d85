/**
 * Configuration.swift: the resolved configuration value, the rule-activation
 * initialiser, the dictionary initialiser, equality and the selection of
 * lintable paths.
 */
module Config {
  import opened Wrappers
  import opened Seqs
  import opened Rules

  /** An absolute path as its list of components; [] is "/". */
  type Path = seq<string>

  /** `Configuration.fileName`. */
  const FileName: string := ".swiftlint.yml"

  /** `XcodeReporter.identifier`, the default reporter. */
  const XcodeReporterIdentifier: string := "xcode"

  // Raw values of `Configuration.Key` read by the dictionary initialiser.
  const CachePathKey: string := "cache_path"
  const DisabledRulesKey: string := "disabled_rules"
  const EnabledRulesKey: string := "enabled_rules"
  const ExcludedKey: string := "excluded"
  const IncludedKey: string := "included"
  const OptInRulesKey: string := "opt_in_rules"
  const ReporterKey: string := "reporter"
  const WarningThresholdKey: string := "warning_threshold"
  const WhitelistRulesKey: string := "whitelist_rules"

  /**
   * A resolved configuration. The three rule-id lists are the declared ones
   * (after alias resolution, before validation); `rules` is the active rule
   * list. `rootPath` and `configurationPath` are nil until the file-loading
   * initialiser sets them.
   */
  datatype Configuration = Configuration(
    included: seq<string>,
    excluded: seq<string>,
    reporter: string,
    warningThreshold: Option<int>,
    disabledRules: seq<Identifier>,
    optInRules: seq<Identifier>,
    whitelistRules: seq<Identifier>,
    rules: seq<Rule>,
    rootPath: Option<Path>,
    configurationPath: Option<Path>,
    cachePath: Option<string>)

  // ---------------------------------------------------------------------------
  // Rule activation
  // ---------------------------------------------------------------------------

  /** `handleAliasWithRuleList`. */
  function ResolveAlias(list: RuleList, alias: string): (id: Identifier)
    ensures alias in list.aliases ==> id == list.aliases[alias]
    ensures alias !in list.aliases ==> id == alias
    ensures Canonical(list) && alias in list.aliases ==> id in list.aliases && list.aliases[id] == id
  {
    IdentifierFor(list, alias).GetOr(alias)
  }

  /** `ids.map(handleAliasWithRuleList)`: each id replaced by its canonical identifier when the catalogue knows it. */
  function ResolveAliases(list: RuleList, ids: seq<string>): (r: seq<Identifier>)
    ensures |r| == |ids|
    ensures forall i :: 0 <= i < |ids| ==> r[i] == (if ids[i] in list.aliases then list.aliases[ids[i]] else ids[i])
  {
    seq(|ids|, i requires 0 <= i < |ids| => ResolveAlias(list, ids[i]))
  }

  /** With a canonical catalogue, resolving twice changes nothing. */
  lemma ResolveAliasesIdempotent(list: RuleList, ids: seq<string>)
    requires Canonical(list)
    ensures ResolveAliases(list, ResolveAliases(list, ids)) == ResolveAliases(list, ids)
  {
  }

  /** `configuredRules ?? (try? ruleList.configuredRules(with: [:])) ?? []`. */
  function ConfiguredRulesOrDefault(list: RuleList, configuredRules: Option<seq<Rule>>): (r: seq<Rule>)
    ensures configuredRules.Some? ==> r == configuredRules.value
    ensures configuredRules.None? && list.configure(map[]).Some? ==> r == list.configure(map[]).value
    ensures configuredRules.None? && list.configure(map[]).None? ==> r == []
  {
    configuredRules.GetOr(list.configure(map[]).GetOr([]))
  }

  /** `validateRuleIdentifiers`: the identifiers of the configured rules (its diagnostics are not modelled). */
  function ValidateRuleIdentifiers(configuredRules: seq<Rule>, disabledRules: seq<Identifier>): (r: seq<Identifier>)
    ensures |r| == |configuredRules|
    ensures forall i :: 0 <= i < |r| ==> r[i] == configuredRules[i].id
    ensures forall id :: id in r <==> exists rule :: rule in configuredRules && rule.id == id
  {
    var ids := seq(|configuredRules|, i requires 0 <= i < |configuredRules| => configuredRules[i].id);
    forall rule | rule in configuredRules ensures rule.id in ids {
      var i :| 0 <= i < |configuredRules| && configuredRules[i] == rule;
      assert ids[i] == rule.id;
    }
    ids
  }

  /** `disabledRules.filter(validRuleIdentifiers.contains)`. */
  function ValidDisabledRules(configuredRules: seq<Rule>, disabledRules: seq<Identifier>): (r: seq<Identifier>)
    ensures KeepsExactly(r, disabledRules, id => exists rule :: rule in configuredRules && rule.id == id)
  {
    var valid := ValidateRuleIdentifiers(configuredRules, disabledRules);
    Filter(disabledRules, id => id in valid)
  }

  /** `containsDuplicateIdentifiers`: `Set(identifiers).count != identifiers.count`. */
  function ContainsDuplicateIdentifiers(identifiers: seq<Identifier>): (r: bool)
    ensures r <==> HasRepeat(identifiers)
  {
    ElementsCountDetectsRepeat(identifiers);
    |Elements(identifiers)| != |identifiers|
  }

  /**
   * The failable rule-activation initialiser `init?(disabledRules:optInRules:
   * enableAllRules:whitelistRules:...)`. The pinned-version check only logs
   * and is not modelled.
   */
  function Activate(disabledRules: seq<string>, optInRules: seq<string>, enableAllRules: bool,
                    whitelistRules: seq<string>, included: seq<string>, excluded: seq<string>,
                    warningThreshold: Option<int>, reporter: string, ruleList: RuleList,
                    configuredRules: Option<seq<Rule>>, cachePath: Option<string>): (r: Option<Configuration>)
    ensures
      var configured := ConfiguredRulesOrDefault(ruleList, configuredRules);
      var disabled := ResolveAliases(ruleList, disabledRules);
      var optIn := ResolveAliases(ruleList, optInRules);
      var whitelist := ResolveAliases(ruleList, whitelistRules);
      var validDisabled := ValidDisabledRules(configured, disabled);
      && (r.None? <==> HasRepeat(validDisabled) || (!enableAllRules && whitelist != [] && (disabled != [] || optIn != [])))
      && (r.Some? ==>
            && r.value.disabledRules == disabled
            && r.value.optInRules == optIn
            && r.value.whitelistRules == whitelist
            && r.value.included == included
            && r.value.excluded == excluded
            && r.value.warningThreshold == warningThreshold
            && r.value.reporter == reporter
            && r.value.cachePath == cachePath
            && r.value.rootPath == None
            && r.value.configurationPath == None
            && Subseq(r.value.rules, configured))
      && (r.Some? && enableAllRules ==> r.value.rules == configured)
      && (r.Some? && !enableAllRules && whitelist != [] ==>
            KeepsExactly(r.value.rules, configured, (rule: Rule) => rule.id in whitelist))
      && (r.Some? && !enableAllRules && whitelist == [] ==>
            KeepsExactly(r.value.rules, configured,
                         (rule: Rule) => rule.id !in validDisabled && (rule.id in optIn || !rule.isOptIn)))
  {
    var configured := ConfiguredRulesOrDefault(ruleList, configuredRules);
    var disabled := ResolveAliases(ruleList, disabledRules);
    var optIn := ResolveAliases(ruleList, optInRules);
    var whitelist := ResolveAliases(ruleList, whitelistRules);
    var validDisabled := ValidDisabledRules(configured, disabled);
    if ContainsDuplicateIdentifiers(validDisabled) then None
    else
      var rules :=
        if enableAllRules then SubseqReflexive(configured); Some(configured)
        else if whitelist != [] then
          if disabled != [] || optIn != [] then None
          else Some(Filter(configured, (rule: Rule) => rule.id in whitelist))
        else
          Some(Filter(configured, (rule: Rule) => rule.id !in validDisabled && (rule.id in optIn || !rule.isOptIn)));
      if rules.None? then None
      else Some(Configuration(included, excluded, reporter, warningThreshold, disabled, optIn, whitelist,
                              rules.value, None, None, cachePath))
  }

  /** Outside the whitelist and enable-all branches, disabling beats opting in, and an opt-in rule nobody opted into stays off. */
  lemma DisablingBeatsOptingIn(disabledRules: seq<string>, optInRules: seq<string>,
                               included: seq<string>, excluded: seq<string>, warningThreshold: Option<int>,
                               reporter: string, ruleList: RuleList, configuredRules: Option<seq<Rule>>,
                               cachePath: Option<string>, rule: Rule)
    requires Activate(disabledRules, optInRules, false, [], included, excluded, warningThreshold, reporter,
                      ruleList, configuredRules, cachePath).Some?
    ensures
      var r := Activate(disabledRules, optInRules, false, [], included, excluded, warningThreshold, reporter,
                        ruleList, configuredRules, cachePath).value;
      var configured := ConfiguredRulesOrDefault(ruleList, configuredRules);
      var disabled := ResolveAliases(ruleList, disabledRules);
      && ((exists known :: known in configured && known.id == rule.id) && rule.id in disabled ==> rule !in r.rules)
      && (rule.isOptIn && rule.id !in ResolveAliases(ruleList, optInRules) ==> rule !in r.rules)
  {
  }

  /** Without enable-all, a whitelist next to any disabled or opt-in entry fails, whether or not those entries name known rules. */
  lemma WhitelistConflictFails(disabledRules: seq<string>, optInRules: seq<string>, whitelistRules: seq<string>,
                               included: seq<string>, excluded: seq<string>, warningThreshold: Option<int>,
                               reporter: string, ruleList: RuleList, configuredRules: Option<seq<Rule>>,
                               cachePath: Option<string>)
    requires whitelistRules != [] && (disabledRules != [] || optInRules != [])
    ensures Activate(disabledRules, optInRules, false, whitelistRules, included, excluded, warningThreshold, reporter,
                     ruleList, configuredRules, cachePath).None?
  {
  }

  /** A disabled id that names no configured rule is dropped before the duplicate check, so listing it twice is harmless. */
  lemma UnknownDuplicatesAreDropped(id: string, optInRules: seq<string>, included: seq<string>, excluded: seq<string>,
                                    warningThreshold: Option<int>, reporter: string, ruleList: RuleList,
                                    configuredRules: Option<seq<Rule>>, cachePath: Option<string>)
    requires forall rule :: rule in ConfiguredRulesOrDefault(ruleList, configuredRules) ==> rule.id != ResolveAlias(ruleList, id)
    ensures Activate([id, id], optInRules, false, [], included, excluded, warningThreshold, reporter,
                     ruleList, configuredRules, cachePath).Some?
  {
  }

  /** A known rule listed twice under `disabled_rules` (by name or alias) makes initialisation fail, even with enable-all. */
  lemma KnownDuplicatesFail(id: string, alias: string, optInRules: seq<string>, enableAllRules: bool,
                            whitelistRules: seq<string>, included: seq<string>, excluded: seq<string>,
                            warningThreshold: Option<int>, reporter: string, ruleList: RuleList,
                            configuredRules: Option<seq<Rule>>, cachePath: Option<string>)
    requires ResolveAlias(ruleList, alias) == ResolveAlias(ruleList, id)
    requires exists rule :: rule in ConfiguredRulesOrDefault(ruleList, configuredRules) && rule.id == ResolveAlias(ruleList, id)
    ensures Activate([id, alias], optInRules, enableAllRules, whitelistRules, included, excluded, warningThreshold,
                     reporter, ruleList, configuredRules, cachePath).None?
  {
  }

  /** A deprecated alias in `disabled_rules` behaves exactly as the identifier it resolves to. */
  lemma {:induction false} AliasBehavesAsIdentifier(before: seq<string>, alias: string, after: seq<string>,
                                                    optInRules: seq<string>, enableAllRules: bool,
                                                    whitelistRules: seq<string>, included: seq<string>,
                                                    excluded: seq<string>, warningThreshold: Option<int>,
                                                    reporter: string, ruleList: RuleList,
                                                    configuredRules: Option<seq<Rule>>, cachePath: Option<string>)
    requires Canonical(ruleList) && alias in ruleList.aliases
    ensures Activate(before + [alias] + after, optInRules, enableAllRules, whitelistRules, included, excluded,
                     warningThreshold, reporter, ruleList, configuredRules, cachePath)
         == Activate(before + [ruleList.aliases[alias]] + after, optInRules, enableAllRules, whitelistRules, included,
                     excluded, warningThreshold, reporter, ruleList, configuredRules, cachePath)
  {
    var d1, d2 := before + [alias] + after, before + [ruleList.aliases[alias]] + after;
    assert ResolveAliases(ruleList, d1) == ResolveAliases(ruleList, d2) by {
      forall i | 0 <= i < |d1| ensures ResolveAliases(ruleList, d1)[i] == ResolveAliases(ruleList, d2)[i] {
        if i != |before| { assert d1[i] == d2[i]; }
      }
    }
  }

  // ---------------------------------------------------------------------------
  // The dictionary initialiser
  // ---------------------------------------------------------------------------

  /** `dict[key]`. */
  function Lookup(dict: Dict, key: string): Option<Value> {
    if key in dict then Some(dict[key]) else None
  }

  /** `object as? String`. */
  function AsString(v: Option<Value>): Option<string> {
    if v.Some? && v.value.Text? then Some(v.value.text) else None
  }

  /** `object as? Int`. */
  function AsInt(v: Option<Value>): Option<int> {
    if v.Some? && v.value.Integer? then Some(v.value.n) else None
  }

  /**
   * `defaultStringArray`: `[String].array(of: object) ?? []`. A list of strings
   * is taken as it is, a lone string as a one-element list, anything else as [].
   */
  function StringArray(v: Option<Value>): (r: seq<string>)
    ensures v.None? ==> r == []
    ensures v.Some? && (v.value.Integer? || v.value.Other?) ==> r == []
    ensures v.Some? && v.value.Text? ==> r == [v.value.text]
    ensures v.Some? && v.value.List? && (exists i :: 0 <= i < |v.value.items| && !v.value.items[i].Text?) ==> r == []
    ensures v.Some? && v.value.List? && (forall i :: 0 <= i < |v.value.items| ==> v.value.items[i].Text?) ==>
              |r| == |v.value.items| && forall i :: 0 <= i < |r| ==> v.value.items[i] == Text(r[i])
  {
    match v
    case Some(Text(s)) => [s]
    case Some(List(items)) =>
      if forall i :: 0 <= i < |items| ==> items[i].Text?
      then seq(|items|, i requires 0 <= i < |items| => items[i].text)
      else []
    case _ => []
  }

  /** A YAML list of strings is read back as exactly that list. */
  lemma StringListReadsBack(strings: seq<string>)
    ensures StringArray(Some(List(seq(|strings|, i requires 0 <= i < |strings| => Text(strings[i]))))) == strings
  {
  }

  /**
   * `init?(dict:ruleList:enableAllRules:cachePath:)`. The invalid-key and
   * deprecation diagnostics only log and are not modelled; `swiftlint_version`
   * is only used for a diagnostic.
   */
  function FromDict(dict: Dict, ruleList: RuleList, enableAllRules: bool, cachePath: Option<string>): (r: Option<Configuration>)
    ensures
      var configured := ruleList.configure(dict);
      var disabled := ResolveAliases(ruleList, StringArray(Lookup(dict, DisabledRulesKey)));
      var optIn := ResolveAliases(ruleList, StringArray(if OptInRulesKey in dict then Lookup(dict, OptInRulesKey)
                                                        else Lookup(dict, EnabledRulesKey)));
      var whitelist := ResolveAliases(ruleList, StringArray(Lookup(dict, WhitelistRulesKey)));
      && (r.None? <==>
            || configured.None?
            || HasRepeat(ValidDisabledRules(configured.value, disabled))
            || (!enableAllRules && whitelist != [] && (disabled != [] || optIn != [])))
      && (r.Some? ==>
            && r.value.disabledRules == disabled
            && r.value.optInRules == optIn
            && r.value.whitelistRules == whitelist
            && r.value.included == StringArray(Lookup(dict, IncludedKey))
            && r.value.excluded == StringArray(Lookup(dict, ExcludedKey)))
      && (r.Some? && !enableAllRules && whitelist != [] ==>
            KeepsExactly(r.value.rules, configured.value, (rule: Rule) => rule.id in whitelist))
      && (r.Some? && !enableAllRules && whitelist == [] ==>
            var validDisabled := ValidDisabledRules(configured.value, disabled);
            KeepsExactly(r.value.rules, configured.value,
                         (rule: Rule) => rule.id !in validDisabled && (rule.id in optIn || !rule.isOptIn)))
    ensures r.Some? && OptInRulesKey in dict ==>
              r.value.optInRules == ResolveAliases(ruleList, StringArray(Some(dict[OptInRulesKey])))
    ensures r.Some? && OptInRulesKey !in dict ==>
              r.value.optInRules == ResolveAliases(ruleList, StringArray(Lookup(dict, EnabledRulesKey)))
    ensures r.Some? && ReporterKey in dict && dict[ReporterKey].Text? ==> r.value.reporter == dict[ReporterKey].text
    ensures r.Some? && (ReporterKey !in dict || !dict[ReporterKey].Text?) ==> r.value.reporter == XcodeReporterIdentifier
    ensures r.Some? && cachePath.Some? ==> r.value.cachePath == cachePath
    ensures r.Some? && cachePath.None? ==> r.value.cachePath == AsString(Lookup(dict, CachePathKey))
    ensures r.Some? ==> r.value.warningThreshold == AsInt(Lookup(dict, WarningThresholdKey))
    ensures r.Some? ==> r.value.rootPath == None && r.value.configurationPath == None
    ensures r.Some? ==> Subseq(r.value.rules, ruleList.configure(dict).value)
    ensures r.Some? && enableAllRules ==> r.value.rules == ruleList.configure(dict).value
  {
    var optInRules := StringArray(if OptInRulesKey in dict then Lookup(dict, OptInRulesKey)
                                  else Lookup(dict, EnabledRulesKey));
    var disabledRules := StringArray(Lookup(dict, DisabledRulesKey));
    var whitelistRules := StringArray(Lookup(dict, WhitelistRulesKey));
    var included := StringArray(Lookup(dict, IncludedKey));
    var excluded := StringArray(Lookup(dict, ExcludedKey));
    var configuredRules := ruleList.configure(dict);
    if configuredRules.None? then None
    else
      Activate(disabledRules, optInRules, enableAllRules, whitelistRules, included, excluded,
               AsInt(Lookup(dict, WarningThresholdKey)),
               AsString(Lookup(dict, ReporterKey)).GetOr(XcodeReporterIdentifier),
               ruleList, configuredRules,
               if cachePath.Some? then cachePath else AsString(Lookup(dict, CachePathKey)))
  }

  /** An empty configuration file yields the default policy: every rule that is not opt-in (or every rule, with enable-all). */
  lemma EmptyDictionaryGivesDefaults(ruleList: RuleList, enableAllRules: bool)
    requires ruleList.configure(map[]).Some?
    ensures
      var r := FromDict(map[], ruleList, enableAllRules, None);
      var all := ruleList.configure(map[]).value;
      && r.Some?
      && r.value.reporter == XcodeReporterIdentifier
      && r.value.included == [] && r.value.excluded == []
      && r.value.disabledRules == [] && r.value.optInRules == [] && r.value.whitelistRules == []
      && r.value.warningThreshold == None && r.value.cachePath == None
      && (enableAllRules ==> r.value.rules == all)
      && (!enableAllRules ==> KeepsExactly(r.value.rules, all, (rule: Rule) => !rule.isOptIn))
  {
  }

  // ---------------------------------------------------------------------------
  // Equality
  // ---------------------------------------------------------------------------

  /**
   * `==` as written: compares excluded, included, reporter, configurationPath
   * and rules; its rootPath conjunct compares `lhs` with itself.
   */
  function Equals(lhs: Configuration, rhs: Configuration): (r: bool)
    ensures r <==>
      lhs.(warningThreshold := rhs.warningThreshold, cachePath := rhs.cachePath, rootPath := rhs.rootPath,
           disabledRules := rhs.disabledRules, optInRules := rhs.optInRules,
           whitelistRules := rhs.whitelistRules) == rhs
  {
    && lhs.excluded == rhs.excluded
    && lhs.included == rhs.included
    && lhs.reporter == rhs.reporter
    && lhs.configurationPath == rhs.configurationPath
    && lhs.rootPath == lhs.rootPath
    && lhs.rules == rhs.rules
  }

  /** Changing the warning threshold, the cache path, the root path or the declared lists never affects equality. */
  lemma EqualsIgnoresUnlistedFields(c: Configuration, warningThreshold: Option<int>, cachePath: Option<string>,
                                    rootPath: Option<Path>, disabledRules: seq<Identifier>,
                                    optInRules: seq<Identifier>, whitelistRules: seq<Identifier>)
    ensures Equals(c, c.(warningThreshold := warningThreshold, cachePath := cachePath, rootPath := rootPath,
                         disabledRules := disabledRules, optInRules := optInRules,
                         whitelistRules := whitelistRules))
  {
  }

  /** `==` is an equivalence relation. */
  lemma EqualsIsEquivalence(a: Configuration, b: Configuration, c: Configuration)
    ensures Equals(a, a)
    ensures Equals(a, b) ==> Equals(b, a)
    ensures Equals(a, b) && Equals(b, c) ==> Equals(a, c)
  {
  }

  /** The rootPath conjunct is always true: configurations differing only in rootPath compare equal. */
  lemma EqualsIgnoresRootPath(c: Configuration, rootPath: Option<Path>)
    requires rootPath != c.rootPath
    ensures Equals(c, c.(rootPath := rootPath))
    ensures !EqualsWithRootPath(c, c.(rootPath := rootPath))
  {
  }

  /** `==` with the rootPath conjunct comparing `lhs` against `rhs`. */
  function EqualsWithRootPath(lhs: Configuration, rhs: Configuration): (r: bool)
    ensures r <==> Equals(lhs, rhs) && lhs.rootPath == rhs.rootPath
  {
    && lhs.excluded == rhs.excluded
    && lhs.included == rhs.included
    && lhs.reporter == rhs.reporter
    && lhs.configurationPath == rhs.configurationPath
    && lhs.rootPath == rhs.rootPath
    && lhs.rules == rhs.rules
  }

  // ---------------------------------------------------------------------------
  // Lintable paths
  // ---------------------------------------------------------------------------

  /**
   * The file-system collaborator: `LintableFileManager.filesToLint(inPath:rootDirectory:)`,
   * `isSwiftFile()` on the path string and `isFile`.
   */
  datatype FileManager = FileManager(
    filesToLint: (string, Option<Path>) -> seq<string>,
    isSwiftFile: string -> bool,
    isFile: string -> bool)

  /** `lintablePaths(inPath:fileManager:)`. */
  function LintablePaths(c: Configuration, path: string, fm: FileManager): (r: seq<string>)
    ensures fm.isSwiftFile(path) && fm.isFile(path) ==> r == [path]
    ensures !(fm.isSwiftFile(path) && fm.isFile(path)) ==>
      forall x :: x in r <==>
        && ((c.included == [] && x in fm.filesToLint(path, None))
            || (exists p :: p in c.included && x in fm.filesToLint(p, c.rootPath)))
        && !(exists e :: e in c.excluded && x in fm.filesToLint(e, c.rootPath))
    ensures !(fm.isSwiftFile(path) && fm.isFile(path)) ==>
      KeepsExactly(r, (if c.included == [] then fm.filesToLint(path, None) else [])
                      + FlatMap(c.included, (p: string) => fm.filesToLint(p, c.rootPath)),
                   (x: string) => !(exists e :: e in c.excluded && x in fm.filesToLint(e, c.rootPath)))
  {
    if fm.isSwiftFile(path) && fm.isFile(path) then [path]
    else
      var pathsForPath := if c.included == [] then fm.filesToLint(path, None) else [];
      var excludedPaths := FlatMap(c.excluded, (e: string) => fm.filesToLint(e, c.rootPath));
      var includedPaths := FlatMap(c.included, (p: string) => fm.filesToLint(p, c.rootPath));
      Filter(pathsForPath + includedPaths, (x: string) => x !in excludedPaths)
  }
}
