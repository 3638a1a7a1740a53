/** Rules and the events that announce their changes. */
module Rules {
  datatype RuleId = RuleId(tenant: string, resource: string)

  datatype Rule = Rule(
    tenant: string, resource: string, algorithm: string, limit: int, window: int, burst: int,
    version: int, updatedAt: int)

  function IdOf(rule: Rule): RuleId {
    RuleId(rule.tenant, rule.resource)
  }

  /** Rules by tenant and resource, the common view of the database and of every cache. */
  type RuleSet = map<RuleId, Rule>

  /** Every rule is kept under its own names. */
  ghost predicate Keyed(rules: RuleSet) {
    forall id | id in rules :: IdOf(rules[id]) == id
  }

  /** UpsertIfNewer: a rule replaces an older version only. */
  function Upsert(rules: RuleSet, rule: Rule): RuleSet {
    if IdOf(rule) in rules && rule.version <= rules[IdOf(rule)].version then rules else rules[IdOf(rule) := rule]
  }

  /** DeleteIfOlderOrEqual: a deletion removes that version or an older one. */
  function DropIfOlder(rules: RuleSet, id: RuleId, version: int): RuleSet {
    if id in rules && rules[id].version <= version then rules - {id} else rules
  }

  datatype Event = Upserted(id: RuleId, version: int) | Deleted(id: RuleId, version: int)
}
