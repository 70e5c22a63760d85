/**
 * The rule catalogue as the configuration layer sees it: rule instances, the
 * alias table and the parsed configuration dictionary. The catalogue itself
 * (RuleList, the Rule protocol, per-rule option parsing) lives outside the
 * modelled files; only what Configuration.swift asks of it is kept here.
 */
module Rules {
  import opened Wrappers

  /** A canonical rule identifier such as "line_length". */
  type Identifier = string

  /**
   * A configured rule instance. `id` is `type(of: rule).description.identifier`,
   * `isOptIn` is `rule is OptInRule`, and `options` stands for the rule's own
   * configuration, which this layer never looks into.
   */
  datatype Rule = Rule(id: Identifier, isOptIn: bool, options: seq<string>)

  /** A node of the parsed YAML document, as far as `as? String`, `as? Int` and `as? [String]` can tell. */
  datatype Value = Text(text: string) | Integer(n: int) | List(items: seq<Value>) | Other

  /** The parsed configuration file: top-level key to value. */
  type Dict = map<string, Value>

  /**
   * The catalogue. `aliases` maps every identifier and deprecated alias to its
   * canonical identifier (`identifier(for:)`); `configure` is
   * `configuredRules(with:)`, which instantiates every rule with the options
   * found in the dictionary and throws (None) on a malformed or duplicated
   * per-rule configuration.
   */
  datatype RuleList = RuleList(aliases: map<string, Identifier>, configure: Dict -> Option<seq<Rule>>)

  /** `ruleList.identifier(for: alias)`. */
  function IdentifierFor(list: RuleList, alias: string): Option<Identifier> {
    if alias in list.aliases then Some(list.aliases[alias]) else None
  }

  /** The catalogue maps every canonical identifier it knows to itself. */
  ghost predicate Canonical(list: RuleList) {
    forall alias :: alias in list.aliases ==> var id := list.aliases[alias]; id in list.aliases && list.aliases[id] == id
  }
}
