/**
 * Configuration+Nesting.swift: the search for the nearest nested
 * configuration file between a directory and the root path, and the
 * identifier-only equality used to de-duplicate rules when merging.
 */
module Nesting {
  import opened Wrappers
  import opened Rules
  import opened Config

  /**
   * What the lookup asks of the outside world: which configuration files
   * exist (`FileManager.fileExists`), the process-wide cache (`getCached`),
   * the file-loading initialiser `Configuration(path:rootPath:optional:quiet:)`
   * and `merge(with:)`, whose definition is not part of this model.
   */
  datatype Environment = Environment(
    configFiles: set<Path>,
    cache: map<Path, Configuration>,
    load: (Path, Option<Path>) -> Configuration,
    merge: (Configuration, Configuration) -> Configuration)

  /** `path.appendingPathComponent(Configuration.fileName)`. */
  function SearchPath(dir: Path): Path {
    dir + [FileName]
  }

  /** A configuration file exists in `dir` and it is not the one `self` was loaded from. */
  predicate HasNestedConfig(self: Configuration, dir: Path, env: Environment) {
    Some(SearchPath(dir)) != self.configurationPath && SearchPath(dir) in env.configFiles
  }

  /** The configuration of `dir`: the one cached under the directory's own path, or else the file loaded afresh. */
  function NestedConfig(self: Configuration, dir: Path, env: Environment): (r: Configuration)
    ensures dir in env.cache ==> r == env.cache[dir]
    ensures dir !in env.cache ==> r == env.load(SearchPath(dir), self.rootPath)
    ensures (forall d :: d in env.cache ==> env.cache[d] == env.load(SearchPath(d), self.rootPath)) ==>
              r == env.load(SearchPath(dir), self.rootPath)
  {
    if dir in env.cache then env.cache[dir] else env.load(SearchPath(dir), self.rootPath)
  }

  /**
   * `configuration(forPath:)`: the result is `self`, or `self` merged with the
   * configuration of exactly one directory on the way from `path` up to "/".
   */
  function ConfigurationForPath(self: Configuration, path: Path, env: Environment): (r: Configuration)
    ensures r == self
         || exists k :: 0 <= k <= |path| && Some(path[..k]) != self.rootPath && HasNestedConfig(self, path[..k], env)
                     && r == env.merge(self, NestedConfig(self, path[..k], env))
    decreases |path|
  {
    if Some(path) == self.rootPath then self
    else if HasNestedConfig(self, path, env) then
      assert path[..|path|] == path;
      env.merge(self, NestedConfig(self, path, env))
    else if Some(path) != self.rootPath && path != [] then
      var parent := path[..|path| - 1];
      assert forall k :: 0 <= k <= |parent| ==> parent[..k] == path[..k];
      ConfigurationForPath(self, parent, env)
    else self
  }

  /** At the root path the configuration is returned unchanged. */
  lemma LookupAtRootIsSelf(self: Configuration, env: Environment)
    requires self.rootPath.Some?
    ensures ConfigurationForPath(self, self.rootPath.value, env) == self
  {
  }

  /** Levels that are neither the root path nor hold a nested configuration are passed over. */
  lemma {:induction false} LookupSkipsLevels(self: Configuration, path: Path, env: Environment, k: nat)
    requires k <= |path|
    requires forall j :: k < j <= |path| ==> Some(path[..j]) != self.rootPath && !HasNestedConfig(self, path[..j], env)
    ensures ConfigurationForPath(self, path, env) == ConfigurationForPath(self, path[..k], env)
    decreases |path|
  {
    if k < |path| {
      assert path[..|path|] == path;
      var parent := path[..|path| - 1];
      assert forall j :: 0 <= j <= |parent| ==> parent[..j] == path[..j];
      LookupSkipsLevels(self, parent, env, k);
    } else {
      assert path[..k] == path;
    }
  }

  /** The nearest directory below the root path that holds a nested configuration is the one merged in; nothing above it is looked at. */
  lemma LookupAppliesNearest(self: Configuration, path: Path, env: Environment, k: nat)
    requires k <= |path|
    requires forall j :: k < j <= |path| ==> Some(path[..j]) != self.rootPath && !HasNestedConfig(self, path[..j], env)
    requires Some(path[..k]) != self.rootPath && HasNestedConfig(self, path[..k], env)
    ensures ConfigurationForPath(self, path, env) == env.merge(self, NestedConfig(self, path[..k], env))
  {
    LookupSkipsLevels(self, path, env, k);
  }

  /** Reaching the root path before any nested configuration gives `self`. */
  lemma LookupStopsAtRootPath(self: Configuration, path: Path, env: Environment, k: nat)
    requires k <= |path|
    requires forall j :: k < j <= |path| ==> Some(path[..j]) != self.rootPath && !HasNestedConfig(self, path[..j], env)
    requires Some(path[..k]) == self.rootPath
    ensures ConfigurationForPath(self, path, env) == self
  {
    LookupSkipsLevels(self, path, env, k);
  }

  /** With no nested configuration anywhere on the way up to "/", the result is `self`. */
  lemma LookupWithoutNestedConfigIsSelf(self: Configuration, path: Path, env: Environment)
    requires forall j :: 0 <= j <= |path| ==> !HasNestedConfig(self, path[..j], env)
    ensures ConfigurationForPath(self, path, env) == self
  {
  }

  /** A cache that only holds what loading would produce does not change the result. */
  lemma {:induction false} CacheIsTransparent(self: Configuration, path: Path, env: Environment)
    requires forall dir :: dir in env.cache ==> env.cache[dir] == env.load(SearchPath(dir), self.rootPath)
    ensures ConfigurationForPath(self, path, env) == ConfigurationForPath(self, path, env.(cache := map[]))
    decreases |path|
  {
    if Some(path) != self.rootPath && !HasNestedConfig(self, path, env) && path != [] {
      CacheIsTransparent(self, path[..|path| - 1], env);
    }
  }

  // ---------------------------------------------------------------------------
  // HashableRule
  // ---------------------------------------------------------------------------

  /** A rule wrapped so that a `Set` keeps one rule per identifier. */
  datatype HashableRule = HashableRule(rule: Rule)

  /** `HashableRule.==`: identifiers only. */
  function HashableEqual(lhs: HashableRule, rhs: HashableRule): (r: bool)
    ensures r <==> lhs.rule.(isOptIn := false, options := []) == rhs.rule.(isOptIn := false, options := [])
  {
    lhs.rule.id == rhs.rule.id
  }

  /** `HashableRule.hashValue`, given the string hash `hashString`. */
  function HashableHashValue(h: HashableRule, hashString: string -> int): (r: int)
    ensures forall other :: HashableEqual(h, other) ==> hashString(other.rule.id) == r
  {
    hashString(h.rule.id)
  }

  /** Rules with the same identifier are equal whatever their options, and rules with different identifiers are not. */
  lemma HashableEqualityIsByIdentifier(rule: Rule, isOptIn: bool, options: seq<string>, other: Rule)
    ensures HashableEqual(HashableRule(rule), HashableRule(rule.(isOptIn := isOptIn, options := options)))
    ensures other.id != rule.id ==> !HashableEqual(HashableRule(rule), HashableRule(other))
  {
  }

  /** `==` is an equivalence relation. */
  lemma HashableEqualIsEquivalence(a: HashableRule, b: HashableRule, c: HashableRule)
    ensures HashableEqual(a, a)
    ensures HashableEqual(a, b) ==> HashableEqual(b, a)
    ensures HashableEqual(a, b) && HashableEqual(b, c) ==> HashableEqual(a, c)
  {
  }

  /** Equal `HashableRule`s hash equally, whatever the string hash. */
  lemma EqualHashableRulesHashEqually(lhs: HashableRule, rhs: HashableRule, hashString: string -> int)
    requires HashableEqual(lhs, rhs)
    ensures HashableHashValue(lhs, hashString) == HashableHashValue(rhs, hashString)
  {
  }
}
