/** What a rule store publishes: the current snapshot and the rollback slot. */
module StoreView {
  import opened RuleTypes

  datatype View = View(current: Option<Snapshot>, slot: Option<Snapshot>)

  /** A publish: next version, displaced snapshot to the slot. */
  function Publish(v: View, rules: seq<Rule>, policy: u32): View
    requires v.current.Some?
  {
    View(Some(Snapshot(rules, v.current.value.version + 1, policy)), v.current)
  }

  /** A rollback: the slot's content at the next version; the slot is consumed. */
  function Rollback(v: View): View
    requires v.current.Some? && v.slot.Some?
  {
    View(Some(v.slot.value.(version := v.current.value.version + 1)), None)
  }

  const CLOSED: View := View(None, None)
  const EMPTY: View := View(Some(Snapshot([], 0, POLICY_PERMIT)), None)
}
