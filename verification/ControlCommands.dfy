/** The command handlers behind the dispatch: which of them change the rule store, and for whom. */
module ControlCommands {
  import opened RuleTypes
  import opened RuleStore
  import opened ControlDispatch
  import opened WireCodec
  import W = WireWalk

  // The commands in the protocol's numbering.
  const ADD_RULE: nat := 2
  const UPDATE_RULE: nat := 3
  const DELETE_RULE: nat := 4
  const REPLACE_RULESET: nat := 6
  const CLEAR_RULES: nat := 7
  const SET_DEFAULT_POLICY: nat := 8

  /** skCmdDeleteRule: the payload is exactly one id. */
  method Delete(payload: seq<byte>, store: Store, env: Env) returns (st: Status)
    requires store.Valid()
    modifies store`current, store`slot, store.engine.table.slots
    ensures store.Valid()
    ensures st == if |payload| != 8 then InvalidParameter
                  else EditStatus(old(store.View()), U64(payload), old(CountOf(store.View())) != 1, env)
    ensures st != Success ==> store.View() == old(store.View()) && store.Buckets() == old(store.Buckets())
    ensures st == Success ==>
      && |payload| == 8
      && Publishes(old(store.View()), store.View(), old(MapOf(store.View())) - {U64(payload)},
                   old(PolicyOf(store.View())))
      && store.Buckets() == old(store.Buckets()) - {U64(payload)}
  {
    if |payload| != 8 {
      return InvalidParameter;
    }
    st := store.Delete(U64(payload), env);
  }

  /** skCmdSetDefaultPolicy: the payload is exactly one word. */
  method SetPolicy(payload: seq<byte>, store: Store, env: Env) returns (st: Status)
    requires store.Valid()
    modifies store`current, store`slot, store.engine.table.slots
    ensures store.Valid() && store.Buckets() == old(store.Buckets())
    ensures st == if |payload| != 4 then InvalidParameter else PolicyStatus(old(store.View()), U32(payload), env)
    ensures st != Success ==> store.View() == old(store.View())
    ensures st == Success ==>
      |payload| == 4 && Publishes(old(store.View()), store.View(), old(MapOf(store.View())), U32(payload))
  {
    if |payload| != 4 {
      return InvalidParameter;
    }
    if U32(payload) != POLICY_PERMIT && U32(payload) != POLICY_BLOCK {
      return InvalidParameter;
    }
    st := store.SetDefaultPolicy(U32(payload), env);
  }

  /** The switch over the command. The queries, statistics and the telemetry flush answer `query` and
      do not touch the store. A command needs the privilege exactly when it can change the store: it
      does so iff it is one of those and succeeds, and then the version goes up by one. */
  method Execute(command: nat, payload: seq<byte>, pool: bool, query: Status, store: Store, env: Env)
    returns (st: Status)
    requires store.Valid()
    modifies store`current, store`slot, store.engine.table.slots
    ensures store.Valid()
    ensures store.View() != old(store.View()) <==> IsModify(command) && st == Success
    ensures st != Success || !IsModify(command) ==> store.Buckets() == old(store.Buckets())
    ensures IsModify(command) && st == Success ==>
      && old(store.View()).current.Some? && store.View().current.Some?
      && store.View().current.value.version == old(store.View()).current.value.version + 1
    ensures !IsModify(command) ==> st == query
  {
    if command == ADD_RULE {
      st := W.AddOrUpdate(payload, false, store, env);
    } else if command == UPDATE_RULE {
      st := W.AddOrUpdate(payload, true, store, env);
    } else if command == DELETE_RULE {
      st := Delete(payload, store, env);
    } else if command == REPLACE_RULESET {
      st := W.ReplaceRuleset(payload, pool, store, env);
    } else if command == CLEAR_RULES {
      st := store.Clear(env);
    } else if command == SET_DEFAULT_POLICY {
      st := SetPolicy(payload, store, env);
    } else {
      st := query;
    }
  }

  /** One request through the checks and its handler: without privilege, with the gate shut or with the
      runtime not active nothing in the store changes, and the request is completed once either way. */
  method Handle(r: Request, c: Arrival, payload: seq<byte>, pool: bool, query: Status, store: Store, env: Env)
    returns (ran: bool)
    requires store.Valid()
    modifies r, store`current, store`slot, store.engine.table.slots
    ensures store.Valid() && r.completions == old(r.completions) + 1
    ensures ran <==> NoneRefuses(Checks(c))
    ensures store.View() != old(store.View()) ==> ran && c.privileged && c.gateOpen && c.active
    ensures store.View() != old(store.View()) <==> ran && IsModify(c.hdr.command) && r.status == FromStore(Success)
    ensures !ran || !IsModify(c.hdr.command) ==> store.Buckets() == old(store.Buckets())
  {
    var admitted := NoneRefuses(Checks(c));
    var st := query;
    if admitted {
      st := Execute(c.hdr.command, payload, pool, query, store, env);
      AdmittedIs(c);
    }
    ran := Dispatch(r, c.(handler := FromStore(st)));
  }

  /** What an admitted request has passed. */
  lemma AdmittedIs(c: Arrival)
    requires NoneRefuses(Checks(c))
    ensures c.gateOpen && c.active && (IsModify(c.hdr.command) ==> c.privileged)
  {
    assert !Checks(c)[0].refuses && !Checks(c)[9].refuses;
  }
}
