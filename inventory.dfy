/**
 * The `parse` method of the `stackl` inventory plugin. For every service
 * definition of a stack instance it does one of two things:
 *   - it reconciles the groups stored on the instance with the service's
 *     group rules, writes them back when they no longer fit, and publishes
 *     them;
 *   - or it publishes a single group named after the service.
 *
 * The Ansible inventory and the Stackl API client are sinks here. An
 * `Effects` object records, in the order they are made, the calls to
 * `add_group`, `add_host`, `set_variable` and `put_stack_instance`.
 *
 * A pass ends in one of three ways (`Halt`):
 *   - normally;
 *   - with the `AnsibleError` that wraps whatever exception was raised;
 *   - with the `exit(1)` of `create_groups`, which `except Exception` does
 *     not catch.
 */
module Inventory {
  import opened Wrappers
  import opened Dicts
  import opened Text
  import opened Groups
  import Secrets

  /**
   * A provisioning parameter value, as far as the plugin looks at it.
   * `Rules` is a list of group rules.
   */
  datatype Value =
    | Str(text: string)
    | Number(number: int)
    | Flag(flag: bool)
    | Null
    | Rules(rules: seq<GroupRule>)

  /** The `hosts` attribute of a service definition: missing, None, or a list. */
  datatype HostsAttr = NoHosts | NullHosts | HostList(hosts: seq<string>)

  /** The `secrets` attribute: missing, None, or a mapping from key to reference. */
  datatype SecretsAttr = NoSecrets | NullSecrets | SecretRefs(refs: Dict<string>)

  datatype ServiceDefinition = ServiceDefinition(
    hosts: HostsAttr,
    params: Dict<Value>,
    secrets: SecretsAttr,
    target: string)

  /**
   * The plugin options that choose and configure the secret backend, and
   * what the Vault server and the Conjur appliance answer.
   */
  datatype Backends = Backends(
    handler: string,
    vault: Secrets.VaultData,
    conjurAddress: string,
    conjurAccount: string,
    conjurVerify: Secrets.Verify,
    conjur: Secrets.ConjurAnswers)

  datatype Call =
    | AddGroup(group: string)
    | AddHost(host: string, group: string)
    | SetVariable(group: string, key: string, value: Value)
    | PutStackInstance(name: string, groups: Groups, disableInvocation: bool)

  /** The exception an `AnsibleError` wraps. */
  datatype Cause =
    | HostsNotAList       // `len(None)` in `check_groups`
    | HostsMissing        // reading `hosts` of a definition that has none
    | RulesNotAList       // `group['tags']` on something that is not a rule
    | SecretsNotAMapping  // `.items()` on a `secrets` of None
    | SecretFailed(error: Secrets.SecretError)

  datatype Halt = Failed(cause: Cause) | Exited(code: int)

  const RulesKey := "stackl_inventory_groups"
  const TargetKey := "infrastructure_target"

  // ---------------------------------------------------------------- outcomes

  /** The calls a piece of the pass makes, and how it stops if it stops. */
  datatype Out = Out(calls: seq<Call>, halt: Option<Halt>)

  /** `a`, then `b` unless `a` stopped. */
  function Then(a: Out, b: Out): Out {
    if a.halt.Some? then a else Out(a.calls + b.calls, b.halt)
  }

  function Emit(calls: seq<Call>): Out {
    Out(calls, None)
  }

  function Fail(cause: Cause): Out {
    Out([], Some(Failed(cause)))
  }

  lemma ThenAssoc(a: Out, b: Out, c: Out)
    ensures Then(Then(a, b), c) == Then(a, Then(b, c))
  {
    if a.halt.None? && b.halt.None? {
      assert (a.calls + b.calls) + c.calls == a.calls + (b.calls + c.calls);
    }
  }

  lemma Concat3(a: seq<Call>, b: seq<Call>, c: seq<Call>)
    ensures (a + b) + c == a + (b + c)
  {
  }

  /** The outcome of a pass and the groups the stack instance holds afterwards. */
  datatype Step = Step(out: Out, groups: Groups)

  // ---------------------------------------------------------------- calls

  /** `set_variable(group, key, value)` for every pair, in order. */
  function VarCalls(group: string, vars: Dict<Value>): (cs: seq<Call>)
    ensures |cs| == |vars|
    ensures forall k :: 0 <= k < |vars| ==> cs[k] == SetVariable(group, vars[k].0, vars[k].1)
  {
    seq(|vars|, k requires 0 <= k < |vars| => SetVariable(group, vars[k].0, vars[k].1))
  }

  /** `add_host(h, group)` for every host, in order. */
  function HostCalls(hosts: seq<string>, group: string): (cs: seq<Call>)
    ensures |cs| == |hosts|
    ensures forall k :: 0 <= k < |hosts| ==> cs[k] == AddHost(hosts[k], group)
  {
    seq(|hosts|, k requires 0 <= k < |hosts| => AddHost(hosts[k], group))
  }

  function EntryHosts(es: seq<Entry>): (hs: seq<string>)
    ensures |hs| == |es|
    ensures forall k :: 0 <= k < |es| ==> hs[k] == es[k].host
  {
    seq(|es|, k requires 0 <= k < |es| => es[k].host)
  }

  /** Resolved secrets as string variables. */
  function AsText(d: Dict<string>): (vars: Dict<Value>)
    ensures |vars| == |d|
    ensures forall k :: 0 <= k < |d| ==> vars[k] == (d[k].0, Str(d[k].1))
  {
    seq(|d|, k requires 0 <= k < |d| => (d[k].0, Str(d[k].1)))
  }

  // ---------------------------------------------------------------- secrets

  predicate KnownHandler(handler: string) {
    handler == "vault" || handler == "base64" || handler == "conjur"
  }

  /**
   * What `secrets` holds after the `if hasattr(service_definition,
   * "secrets")` block. A definition without the attribute resolves nothing.
   * With None, the chosen backend fails on `.items()`. With an unknown handler
   * name no backend runs, and reading `secrets` raises.
   */
  function SecretVars(attr: SecretsAttr, b: Backends): Result<Dict<string>, Cause> {
    match attr
    case NoSecrets => Ok([])
    case NullSecrets =>
      if KnownHandler(b.handler) then Err(SecretsNotAMapping)
      else Err(SecretFailed(Secrets.SecretsUnbound))
    case SecretRefs(refs) =>
      match Secrets.Resolve(b.handler, refs, b.vault, b.conjurAddress, b.conjurAccount, b.conjurVerify, b.conjur)
      case Ok(d) => Ok(d)
      case Err(e) => Err(SecretFailed(e))
  }

  /** Every resolved secret set as a variable of `group`, or the failure. */
  function Secured(group: string, attr: SecretsAttr, b: Backends): Out {
    match SecretVars(attr, b)
    case Ok(d) => Emit(VarCalls(group, AsText(d)))
    case Err(c) => Fail(c)
  }

  // ---------------------------------------------------------------- grouped branch

  /**
   * One entry of a stored group: the host, every provisioning parameter,
   * then the secrets, which are resolved again for every entry.
   */
  function HostEntry(tag: string, e: Entry, sd: ServiceDefinition, b: Backends): Out {
    Then(Emit([AddHost(e.host, tag)] + VarCalls(tag, sd.params)), Secured(tag, sd.secrets, b))
  }

  function HostEntries(tag: string, es: seq<Entry>, sd: ServiceDefinition, b: Backends): Out
    decreases |es|
  {
    if es == [] then Emit([])
    else Then(HostEntry(tag, es[0], sd, b), HostEntries(tag, es[1..], sd, b))
  }

  /** The outcome of publishing one group: the group, then its entries. */
  function PublishOne(tag: string, es: seq<Entry>, sd: ServiceDefinition, b: Backends): Out {
    Then(Emit([AddGroup(tag)]), HostEntries(tag, es, sd, b))
  }

  /** `for item, value in stack_instance.groups.items()`: every group, then its entries. */
  function Publish(gs: Groups, sd: ServiceDefinition, b: Backends): Out
    decreases |gs|
  {
    if gs == [] then Emit([])
    else Then(PublishOne(gs[0].0, gs[0].1, sd, b), Publish(gs[1..], sd, b))
  }

  /**
   * How `for group in stackl_inventory_groups` sees the value of the
   * parameter. An empty string iterates as nothing. Any other value that is
   * not a list of rules raises.
   */
  function RulesOf(v: Value): Option<seq<GroupRule>> {
    match v
    case Rules(rs) => Some(rs)
    case Str(s) => if s == "" then Some([]) else None
    case _ => None
  }

  /**
   * The grouped branch, for a definition with `hosts` and the rules
   * parameter `v`. It checks the stored groups first. When the check fails it
   * partitions the hosts, replaces the stored groups and writes them with
   * `disable_invocation=True`. Either way it publishes the stored groups.
   */
  ghost function Grouped(name: string, groups: Groups, sd: ServiceDefinition, v: Value, b: Backends): Step
    requires !sd.hosts.NoHosts?
  {
    if sd.hosts.NullHosts? then Step(Fail(HostsNotAList), groups)
    else
      var hs := sd.hosts.hosts;
      match RulesOf(v)
      case None => Step(Fail(RulesNotAList), groups)
      case Some(rules) =>
        if GroupsValid(groups, rules, |hs|) then Step(Publish(groups, sd, b), groups)
        else
          match Partition(hs, rules, sd.target)
          case Exit(_) => Step(Out([], Some(Exited(1))), groups)
          case Done(gs, _) => Step(Then(Emit([PutStackInstance(name, gs, true)]), Publish(gs, sd, b)), gs)
  }

  // ---------------------------------------------------------------- fallback branch

  /** The hosts of a service without group rules: its own, or `service_index` when it has none. */
  function FallbackHosts(service: string, index: nat, hosts: HostsAttr): seq<string> {
    if hosts.HostList? && hosts.hosts != [] then hosts.hosts
    else [service + "_" + NatToString(index)]
  }

  /**
   * One group named after the service. It holds the hosts, the
   * infrastructure target, every provisioning parameter and the secrets as
   * variables. A definition without `hosts` fails once its group is added.
   */
  function Fallback(service: string, index: nat, sd: ServiceDefinition, b: Backends): Out {
    if sd.hosts.NoHosts? then Out([AddGroup(service)], Some(Failed(HostsMissing)))
    else
      Then(Emit([AddGroup(service)] + HostCalls(FallbackHosts(service, index, sd.hosts), service)
                + [SetVariable(service, TargetKey, Str(sd.target))] + VarCalls(service, sd.params)),
           Secured(service, sd.secrets, b))
  }

  // ---------------------------------------------------------------- the pass

  /** A definition takes the grouped branch when it has `hosts` and the rules parameter. */
  predicate IsGrouped(sd: ServiceDefinition) {
    !sd.hosts.NoHosts? && Get(sd.params, RulesKey).Some?
  }

  ghost function Definition(name: string, groups: Groups, service: string, index: nat,
                            sd: ServiceDefinition, b: Backends): Step
  {
    if IsGrouped(sd) then Grouped(name, groups, sd, Get(sd.params, RulesKey).value, b)
    else Step(Fallback(service, index, sd, b), groups)
  }

  /** The definitions of one service, numbered from `index` on. */
  ghost function Definitions(name: string, groups: Groups, service: string, defs: seq<ServiceDefinition>,
                             index: nat, b: Backends): Step
    decreases |defs|
  {
    if defs == [] then Step(Emit([]), groups)
    else
      var s := Definition(name, groups, service, index, defs[0], b);
      if s.out.halt.Some? then s
      else
        var rest := Definitions(name, s.groups, service, defs[1..], index + 1, b);
        Step(Then(s.out, rest.out), rest.groups)
  }

  /** Every service of the stack instance, in order. */
  ghost function Services(name: string, groups: Groups, services: Dict<seq<ServiceDefinition>>, b: Backends): Step
    decreases |services|
  {
    if services == [] then Step(Emit([]), groups)
    else
      var s := Definitions(name, groups, services[0].0, services[0].1, 0, b);
      if s.out.halt.Some? then s
      else
        var rest := Services(name, s.groups, services[1..], b);
        Step(Then(s.out, rest.out), rest.groups)
  }

  // ---------------------------------------------------------------- the sinks

  /** The inventory and the API client, as the calls made on them. */
  class Effects {
    var calls: seq<Call>

    constructor ()
      ensures calls == []
    {
      calls := [];
    }

    method Record(c: Call)
      modifies this
      ensures calls == old(calls) + [c]
    {
      calls := calls + [c];
    }
  }

  /** The stack instance as fetched: its `groups` are reassigned by the pass. */
  class StackInstance {
    const name: string
    var groups: Groups
    const services: Dict<seq<ServiceDefinition>>

    constructor (name: string, groups: Groups, services: Dict<seq<ServiceDefinition>>)
      ensures this.name == name && this.groups == groups && this.services == services
    {
      this.name := name;
      this.groups := groups;
      this.services := services;
    }
  }

  // ---------------------------------------------------------------- the methods

  method SetVariables(log: Effects, group: string, vars: Dict<Value>)
    modifies log
    ensures log.calls == old(log.calls) + VarCalls(group, vars)
  {
    var i := 0;
    while i < |vars|
      invariant 0 <= i <= |vars|
      invariant log.calls == old(log.calls) + VarCalls(group, vars[..i])
    {
      assert VarCalls(group, vars[..i + 1]) == VarCalls(group, vars[..i]) + [SetVariable(group, vars[i].0, vars[i].1)];
      log.Record(SetVariable(group, vars[i].0, vars[i].1));
      i := i + 1;
    }
    assert vars[..i] == vars;
  }

  method AddHosts(log: Effects, hosts: seq<string>, group: string)
    modifies log
    ensures log.calls == old(log.calls) + HostCalls(hosts, group)
  {
    var i := 0;
    while i < |hosts|
      invariant 0 <= i <= |hosts|
      invariant log.calls == old(log.calls) + HostCalls(hosts[..i], group)
    {
      assert HostCalls(hosts[..i + 1], group) == HostCalls(hosts[..i], group) + [AddHost(hosts[i], group)];
      log.Record(AddHost(hosts[i], group));
      i := i + 1;
    }
    assert hosts[..i] == hosts;
  }

  /** The secrets block: resolve with the configured backend, then one variable per secret. */
  method SetSecrets(log: Effects, group: string, attr: SecretsAttr, b: Backends) returns (halt: Option<Halt>)
    modifies log
    ensures log.calls == old(log.calls) + Secured(group, attr, b).calls
    ensures halt == Secured(group, attr, b).halt
  {
    var r := SecretVars(attr, b);
    if r.Err? {
      return Some(Failed(r.error));
    }
    SetVariables(log, group, AsText(r.value));
    return None;
  }

  method AddHostEntry(log: Effects, tag: string, e: Entry, sd: ServiceDefinition, b: Backends)
    returns (halt: Option<Halt>)
    modifies log
    ensures log.calls == old(log.calls) + HostEntry(tag, e, sd, b).calls
    ensures halt == HostEntry(tag, e, sd, b).halt
  {
    ghost var vars := [AddHost(e.host, tag)] + VarCalls(tag, sd.params);
    log.Record(AddHost(e.host, tag));
    SetVariables(log, tag, sd.params);
    Concat3(old(log.calls), [AddHost(e.host, tag)], VarCalls(tag, sd.params));
    halt := SetSecrets(log, tag, sd.secrets, b);
    Concat3(old(log.calls), vars, Secured(tag, sd.secrets, b).calls);
  }

  /**
   * One turn of a loop whose outcome so far is `done`: `a` runs next and
   * `rest` after it, unless `a` stops.
   */
  lemma ThenStep(whole: Out, done: seq<Call>, a: Out, rest: Out)
    requires whole == Then(Emit(done), Then(a, rest))
    ensures whole == Then(Out(done + a.calls, a.halt), rest)
    ensures a.halt.Some? ==> whole == Out(done + a.calls, a.halt)
  {
    ThenAssoc(Emit(done), a, rest);
  }

  lemma ThenDone(whole: Out, done: seq<Call>)
    requires whole == Then(Emit(done), Emit([]))
    ensures whole == Out(done, None)
  {
    assert done + [] == done;
  }

  lemma HostEntriesUnfold(tag: string, es: seq<Entry>, i: nat, sd: ServiceDefinition, b: Backends)
    requires i < |es|
    ensures HostEntries(tag, es[i..], sd, b) == Then(HostEntry(tag, es[i], sd, b), HostEntries(tag, es[i + 1..], sd, b))
  {
    assert es[i..][0] == es[i] && es[i..][1..] == es[i + 1..];
  }

  method AddGroupEntries(log: Effects, tag: string, es: seq<Entry>, sd: ServiceDefinition, b: Backends)
    returns (halt: Option<Halt>)
    modifies log
    ensures log.calls == old(log.calls) + HostEntries(tag, es, sd, b).calls
    ensures halt == HostEntries(tag, es, sd, b).halt
  {
    ghost var whole := HostEntries(tag, es, sd, b);
    ghost var done: seq<Call> := [];
    var i := 0;
    while i < |es|
      invariant 0 <= i <= |es|
      invariant log.calls == old(log.calls) + done
      invariant whole == Then(Emit(done), HostEntries(tag, es[i..], sd, b))
    {
      ghost var entry := HostEntry(tag, es[i], sd, b);
      HostEntriesUnfold(tag, es, i, sd, b);
      ThenStep(whole, done, entry, HostEntries(tag, es[i + 1..], sd, b));
      halt := AddHostEntry(log, tag, es[i], sd, b);
      Concat3(old(log.calls), done, entry.calls);
      if halt.Some? {
        return;
      }
      done := done + entry.calls;
      i := i + 1;
    }
    ThenDone(whole, done);
    return None;
  }

  lemma PublishUnfold(gs: Groups, i: nat, sd: ServiceDefinition, b: Backends)
    requires i < |gs|
    ensures Publish(gs[i..], sd, b) == Then(PublishOne(gs[i].0, gs[i].1, sd, b), Publish(gs[i + 1..], sd, b))
  {
    assert gs[i..][0] == gs[i] && gs[i..][1..] == gs[i + 1..];
  }

  method PublishGroups(log: Effects, gs: Groups, sd: ServiceDefinition, b: Backends) returns (halt: Option<Halt>)
    modifies log
    ensures log.calls == old(log.calls) + Publish(gs, sd, b).calls
    ensures halt == Publish(gs, sd, b).halt
  {
    ghost var whole := Publish(gs, sd, b);
    ghost var done: seq<Call> := [];
    var i := 0;
    while i < |gs|
      invariant 0 <= i <= |gs|
      invariant log.calls == old(log.calls) + done
      invariant whole == Then(Emit(done), Publish(gs[i..], sd, b))
    {
      var tag := gs[i].0;
      ghost var group := PublishOne(tag, gs[i].1, sd, b);
      PublishUnfold(gs, i, sd, b);
      ThenStep(whole, done, group, Publish(gs[i + 1..], sd, b));
      ghost var before := log.calls;
      log.Record(AddGroup(tag));
      halt := AddGroupEntries(log, tag, gs[i].1, sd, b);
      Concat3(before, [AddGroup(tag)], HostEntries(tag, gs[i].1, sd, b).calls);
      Concat3(old(log.calls), done, group.calls);
      if halt.Some? {
        return;
      }
      done := done + group.calls;
      i := i + 1;
    }
    ThenDone(whole, done);
    return None;
  }

  /** The grouped branch: check, maybe recreate and write, then publish. */
  method ParseGrouped(si: StackInstance, log: Effects, sd: ServiceDefinition, v: Value, b: Backends)
    returns (halt: Option<Halt>)
    requires !sd.hosts.NoHosts?
    modifies si, log
    ensures var s := Grouped(si.name, old(si.groups), sd, v, b);
      log.calls == old(log.calls) + s.out.calls && halt == s.out.halt && si.groups == s.groups
  {
    if sd.hosts.NullHosts? {
      return Some(Failed(HostsNotAList));
    }
    var rules := RulesOf(v);
    if rules.None? {
      return Some(Failed(RulesNotAList));
    }
    var ok := CheckGroups(si.groups, rules.value, sd.hosts.hosts);
    if !ok {
      var pool := new HostPool(sd.hosts.hosts);
      var created := CreateGroups(pool, rules.value, sd.target);
      if created.None? {
        return Some(Exited(1));
      }
      si.groups := created.value;
      log.Record(PutStackInstance(si.name, si.groups, true));
      halt := PublishGroups(log, si.groups, sd, b);
      Concat3(old(log.calls), [PutStackInstance(si.name, si.groups, true)], Publish(si.groups, sd, b).calls);
    } else {
      halt := PublishGroups(log, si.groups, sd, b);
    }
  }

  /** The fallback branch: one group named after the service. */
  method ParseFallback(log: Effects, service: string, index: nat, sd: ServiceDefinition, b: Backends)
    returns (halt: Option<Halt>)
    modifies log
    ensures log.calls == old(log.calls) + Fallback(service, index, sd, b).calls
    ensures halt == Fallback(service, index, sd, b).halt
  {
    log.Record(AddGroup(service));
    if sd.hosts.NoHosts? {
      return Some(Failed(HostsMissing));
    }
    ghost var hosts := FallbackHosts(service, index, sd.hosts);
    if sd.hosts.HostList? && sd.hosts.hosts != [] {
      AddHosts(log, sd.hosts.hosts, service);
    } else {
      log.Record(AddHost(service + "_" + NatToString(index), service));
      assert HostCalls(hosts, service) == [AddHost(service + "_" + NatToString(index), service)];
    }
    ghost var shown := [AddGroup(service)] + HostCalls(hosts, service);
    Concat3(old(log.calls), [AddGroup(service)], HostCalls(hosts, service));
    ghost var target := [SetVariable(service, TargetKey, Str(sd.target))];
    log.Record(SetVariable(service, TargetKey, Str(sd.target)));
    Concat3(old(log.calls), shown, target);
    SetVariables(log, service, sd.params);
    ghost var vars := shown + target + VarCalls(service, sd.params);
    Concat3(old(log.calls), shown + target, VarCalls(service, sd.params));
    halt := SetSecrets(log, service, sd.secrets, b);
    Concat3(old(log.calls), vars, Secured(service, sd.secrets, b).calls);
    assert Fallback(service, index, sd, b) == Then(Emit(vars), Secured(service, sd.secrets, b));
  }

  method ParseDefinition(si: StackInstance, log: Effects, service: string, index: nat,
                         sd: ServiceDefinition, b: Backends) returns (halt: Option<Halt>)
    modifies si, log
    ensures var s := Definition(si.name, old(si.groups), service, index, sd, b);
      log.calls == old(log.calls) + s.out.calls && halt == s.out.halt && si.groups == s.groups
  {
    var v := Get(sd.params, RulesKey);
    if !sd.hosts.NoHosts? && v.Some? {
      halt := ParseGrouped(si, log, sd, v.value, b);
    } else {
      halt := ParseFallback(log, service, index, sd, b);
    }
  }

  /** One turn of a loop over definitions or services, with the groups carried along. */
  lemma StepTurn(whole: Step, done: seq<Call>, s: Step, rest: Step, next: Step)
    requires whole == Step(Then(Emit(done), next.out), next.groups)
    requires next == (if s.out.halt.Some? then s else Step(Then(s.out, rest.out), rest.groups))
    ensures s.out.halt.Some? ==> whole == Step(Out(done + s.out.calls, s.out.halt), s.groups)
    ensures s.out.halt.None? ==> whole == Step(Then(Emit(done + s.out.calls), rest.out), rest.groups)
  {
    ThenAssoc(Emit(done), s.out, rest.out);
  }

  lemma StepDone(whole: Step, done: seq<Call>, groups: Groups)
    requires whole == Step(Then(Emit(done), Emit([])), groups)
    ensures whole == Step(Out(done, None), groups)
  {
    assert done + [] == done;
  }

  lemma DefinitionsUnfold(name: string, groups: Groups, service: string, defs: seq<ServiceDefinition>, i: nat, b: Backends)
    requires i < |defs|
    ensures var s := Definition(name, groups, service, i, defs[i], b);
      Definitions(name, groups, service, defs[i..], i, b)
      == if s.out.halt.Some? then s
         else var rest := Definitions(name, s.groups, service, defs[i + 1..], i + 1, b);
           Step(Then(s.out, rest.out), rest.groups)
  {
    assert defs[i..][0] == defs[i] && defs[i..][1..] == defs[i + 1..];
  }

  /** `for index, service_definition in enumerate(si_service)`. */
  method ParseService(si: StackInstance, log: Effects, service: string, defs: seq<ServiceDefinition>, b: Backends)
    returns (halt: Option<Halt>)
    modifies si, log
    ensures var s := Definitions(si.name, old(si.groups), service, defs, 0, b);
      log.calls == old(log.calls) + s.out.calls && halt == s.out.halt && si.groups == s.groups
  {
    ghost var whole := Definitions(si.name, si.groups, service, defs, 0, b);
    ghost var done: seq<Call> := [];
    var i := 0;
    while i < |defs|
      invariant 0 <= i <= |defs|
      invariant log.calls == old(log.calls) + done
      invariant var next := Definitions(si.name, si.groups, service, defs[i..], i, b);
        whole == Step(Then(Emit(done), next.out), next.groups)
    {
      ghost var next := Definitions(si.name, si.groups, service, defs[i..], i, b);
      ghost var s := Definition(si.name, si.groups, service, i, defs[i], b);
      DefinitionsUnfold(si.name, si.groups, service, defs, i, b);
      halt := ParseDefinition(si, log, service, i, defs[i], b);
      ghost var rest := Definitions(si.name, si.groups, service, defs[i + 1..], i + 1, b);
      StepTurn(whole, done, s, rest, next);
      Concat3(old(log.calls), done, s.out.calls);
      if halt.Some? {
        return;
      }
      done := done + s.out.calls;
      i := i + 1;
    }
    StepDone(whole, done, si.groups);
    return None;
  }

  lemma ServicesUnfold(name: string, groups: Groups, services: Dict<seq<ServiceDefinition>>, i: nat, b: Backends)
    requires i < |services|
    ensures var s := Definitions(name, groups, services[i].0, services[i].1, 0, b);
      Services(name, groups, services[i..], b)
      == if s.out.halt.Some? then s
         else var rest := Services(name, s.groups, services[i + 1..], b);
           Step(Then(s.out, rest.out), rest.groups)
  {
    assert services[i..][0] == services[i] && services[i..][1..] == services[i + 1..];
  }

  /** The loop of `parse` over `stack_instance.services`. */
  method Parse(si: StackInstance, log: Effects, b: Backends) returns (halt: Option<Halt>)
    modifies si, log
    ensures var s := Services(si.name, old(si.groups), si.services, b);
      log.calls == old(log.calls) + s.out.calls && halt == s.out.halt && si.groups == s.groups
  {
    ghost var whole := Services(si.name, si.groups, si.services, b);
    ghost var done: seq<Call> := [];
    var i := 0;
    while i < |si.services|
      invariant 0 <= i <= |si.services|
      invariant log.calls == old(log.calls) + done
      invariant var next := Services(si.name, si.groups, si.services[i..], b);
        whole == Step(Then(Emit(done), next.out), next.groups)
    {
      ghost var next := Services(si.name, si.groups, si.services[i..], b);
      ghost var s := Definitions(si.name, si.groups, si.services[i].0, si.services[i].1, 0, b);
      ServicesUnfold(si.name, si.groups, si.services, i, b);
      halt := ParseService(si, log, si.services[i].0, si.services[i].1, b);
      ghost var rest := Services(si.name, si.groups, si.services[i + 1..], b);
      StepTurn(whole, done, s, rest, next);
      Concat3(old(log.calls), done, s.out.calls);
      if halt.Some? {
        return;
      }
      done := done + s.out.calls;
      i := i + 1;
    }
    StepDone(whole, done, si.groups);
    return None;
  }

  // ---------------------------------------------------------------- what the pass shows and writes

  function Filter(cs: seq<Call>, keep: Call -> bool): seq<Call>
    decreases |cs|
  {
    if cs == [] then [] else (if keep(cs[0]) then [cs[0]] else []) + Filter(cs[1..], keep)
  }

  predicate IsWrite(c: Call) {
    c.PutStackInstance?
  }

  /** The calls that make up the inventory's groups and their hosts. */
  predicate Shows(c: Call) {
    c.AddGroup? || c.AddHost?
  }

  function Writes(cs: seq<Call>): seq<Call> {
    Filter(cs, IsWrite)
  }

  function Shown(cs: seq<Call>): seq<Call> {
    Filter(cs, Shows)
  }

  lemma {:induction false} FilterAppend(a: seq<Call>, b: seq<Call>, keep: Call -> bool)
    ensures Filter(a + b, keep) == Filter(a, keep) + Filter(b, keep)
  {
    if a != [] {
      assert (a + b)[0] == a[0] && (a + b)[1..] == a[1..] + b;
      FilterAppend(a[1..], b, keep);
      var x := if keep(a[0]) then [a[0]] else [];
      assert x + (Filter(a[1..], keep) + Filter(b, keep)) == (x + Filter(a[1..], keep)) + Filter(b, keep);
    } else {
      assert a + b == b;
    }
  }

  lemma {:induction false} FilterNone(cs: seq<Call>, keep: Call -> bool)
    requires forall k :: 0 <= k < |cs| ==> !keep(cs[k])
    ensures Filter(cs, keep) == []
  {
    if cs != [] {
      FilterNone(cs[1..], keep);
    }
  }

  lemma {:induction false} FilterAll(cs: seq<Call>, keep: Call -> bool)
    requires forall k :: 0 <= k < |cs| ==> keep(cs[k])
    ensures Filter(cs, keep) == cs
  {
    if cs != [] {
      FilterAll(cs[1..], keep);
    }
  }

  /** The groups and hosts a stored assignment stands for, in order. */
  function Members(gs: Groups): seq<Call>
    decreases |gs|
  {
    if gs == [] then []
    else [AddGroup(gs[0].0)] + HostCalls(EntryHosts(gs[0].1), gs[0].0) + Members(gs[1..])
  }

  lemma VarCallsQuiet(group: string, vars: Dict<Value>)
    ensures Writes(VarCalls(group, vars)) == [] && Shown(VarCalls(group, vars)) == []
  {
    FilterNone(VarCalls(group, vars), IsWrite);
    FilterNone(VarCalls(group, vars), Shows);
  }

  lemma SecuredQuiet(group: string, attr: SecretsAttr, b: Backends)
    ensures Writes(Secured(group, attr, b).calls) == [] && Shown(Secured(group, attr, b).calls) == []
  {
    if SecretVars(attr, b).Ok? {
      VarCallsQuiet(group, AsText(SecretVars(attr, b).value));
    }
  }

  lemma HostEntryShown(tag: string, e: Entry, sd: ServiceDefinition, b: Backends)
    ensures Writes(HostEntry(tag, e, sd, b).calls) == []
    ensures Shown(HostEntry(tag, e, sd, b).calls) == [AddHost(e.host, tag)]
  {
    var vars := VarCalls(tag, sd.params);
    var sec := Secured(tag, sd.secrets, b).calls;
    VarCallsQuiet(tag, sd.params);
    SecuredQuiet(tag, sd.secrets, b);
    FilterAppend([AddHost(e.host, tag)], vars, IsWrite);
    FilterAppend([AddHost(e.host, tag)], vars, Shows);
    FilterAppend([AddHost(e.host, tag)] + vars, sec, IsWrite);
    FilterAppend([AddHost(e.host, tag)] + vars, sec, Shows);
  }

  /**
   * The entries of one group show their hosts in order and write nothing;
   * a failure part way shows a prefix of them.
   */
  lemma {:induction false} HostEntriesShown(tag: string, es: seq<Entry>, sd: ServiceDefinition, b: Backends)
    ensures Writes(HostEntries(tag, es, sd, b).calls) == []
    ensures Shown(HostEntries(tag, es, sd, b).calls) <= HostCalls(EntryHosts(es), tag)
    ensures HostEntries(tag, es, sd, b).halt.None? ==>
      Shown(HostEntries(tag, es, sd, b).calls) == HostCalls(EntryHosts(es), tag)
  {
    if es != [] {
      var h := HostEntry(tag, es[0], sd, b);
      var r := HostEntries(tag, es[1..], sd, b);
      HostEntryShown(tag, es[0], sd, b);
      HostEntriesShown(tag, es[1..], sd, b);
      assert HostCalls(EntryHosts(es), tag) == [AddHost(es[0].host, tag)] + HostCalls(EntryHosts(es[1..]), tag);
      if h.halt.None? {
        FilterAppend(h.calls, r.calls, IsWrite);
        FilterAppend(h.calls, r.calls, Shows);
      }
    }
  }

  lemma PublishOneShown(tag: string, es: seq<Entry>, sd: ServiceDefinition, b: Backends)
    ensures var o := PublishOne(tag, es, sd, b);
      Writes(o.calls) == []
      && Shown(o.calls) <= [AddGroup(tag)] + HostCalls(EntryHosts(es), tag)
      && |Shown(o.calls)| >= 1
      && (o.halt.None? ==> Shown(o.calls) == [AddGroup(tag)] + HostCalls(EntryHosts(es), tag))
  {
    var r := HostEntries(tag, es, sd, b);
    HostEntriesShown(tag, es, sd, b);
    FilterAppend([AddGroup(tag)], r.calls, IsWrite);
    FilterAppend([AddGroup(tag)], r.calls, Shows);
  }

  /**
   * Publishing a stored assignment shows exactly its groups and hosts, in
   * order, and writes nothing. A failure part way leaves a prefix of them
   * in the inventory.
   */
  lemma {:induction false} PublishShown(gs: Groups, sd: ServiceDefinition, b: Backends)
    ensures Writes(Publish(gs, sd, b).calls) == []
    ensures Shown(Publish(gs, sd, b).calls) <= Members(gs)
    ensures Publish(gs, sd, b).halt.None? ==> Shown(Publish(gs, sd, b).calls) == Members(gs)
  {
    if gs != [] {
      var o := PublishOne(gs[0].0, gs[0].1, sd, b);
      var r := Publish(gs[1..], sd, b);
      var head := [AddGroup(gs[0].0)] + HostCalls(EntryHosts(gs[0].1), gs[0].0);
      PublishOneShown(gs[0].0, gs[0].1, sd, b);
      PublishShown(gs[1..], sd, b);
      assert Members(gs) == head + Members(gs[1..]);
      if o.halt.None? {
        FilterAppend(o.calls, r.calls, IsWrite);
        FilterAppend(o.calls, r.calls, Shows);
      }
    }
  }

  // ---------------------------------------------------------------- the grouped branch

  /**
   * `put_stack_instance` is called exactly when the stored groups fail the
   * check and the partition succeeds. It is called once, with the new groups
   * and `disable_invocation` set, and those groups replace the stored ones
   * wholesale. When the check passes nothing is written and the groups stay.
   * When the partition runs out of hosts, `exit(1)` is all that happens.
   */
  lemma GroupedWrites(name: string, groups: Groups, sd: ServiceDefinition, v: Value, b: Backends)
    requires sd.hosts.HostList? && RulesOf(v).Some?
    ensures var hs, rules := sd.hosts.hosts, RulesOf(v).value;
      var s := Grouped(name, groups, sd, v, b);
      var a := Partition(hs, rules, sd.target);
      var recompute := !GroupsValid(groups, rules, |hs|);
      (Writes(s.out.calls) != [] <==> recompute && a.Done?)
      && (recompute && a.Done? ==> Writes(s.out.calls) == [PutStackInstance(name, a.groups, true)] && s.groups == a.groups)
      && (!recompute ==> s.groups == groups)
      && (recompute && a.Exit? ==> s == Step(Out([], Some(Exited(1))), groups))
  {
    var hs, rules := sd.hosts.hosts, RulesOf(v).value;
    var a := Partition(hs, rules, sd.target);
    if !GroupsValid(groups, rules, |hs|) && a.Done? {
      var put := PutStackInstance(name, a.groups, true);
      PublishShown(a.groups, sd, b);
      FilterAppend([put], Publish(a.groups, sd, b).calls, IsWrite);
    } else {
      PublishShown(groups, sd, b);
    }
  }

  /**
   * What the grouped branch shows is what the stack instance holds
   * afterwards: every stored group with its hosts, in order. When a later
   * step fails, only a prefix of them is shown.
   */
  lemma GroupedShowsStored(name: string, groups: Groups, sd: ServiceDefinition, v: Value, b: Backends)
    requires !sd.hosts.NoHosts?
    ensures var s := Grouped(name, groups, sd, v, b);
      Shown(s.out.calls) <= Members(s.groups)
      && (s.out.halt.None? ==> Shown(s.out.calls) == Members(s.groups))
  {
    var s := Grouped(name, groups, sd, v, b);
    if sd.hosts.HostList? && RulesOf(v).Some? {
      var hs, rules := sd.hosts.hosts, RulesOf(v).value;
      var a := Partition(hs, rules, sd.target);
      if !GroupsValid(groups, rules, |hs|) && a.Done? {
        var put := PutStackInstance(name, a.groups, true);
        PublishShown(a.groups, sd, b);
        FilterAppend([put], Publish(a.groups, sd, b).calls, Shows);
      } else {
        PublishShown(groups, sd, b);
      }
    }
  }

  /**
   * A later grouped definition of the same pass, with the same hosts and
   * rules, sees the groups the first one left on the stack instance.
   * Nothing is written then if nothing was written the first time. After a
   * write, the fresh groups pass the check only when the rules name no tag,
   * or when the service has a single host and every named tag is asked for.
   * Any other write is made again, with the same groups.
   */
  lemma ReparseWrites(name: string, groups: Groups, sd: ServiceDefinition, v: Value, b: Backends)
    requires sd.hosts.HostList? && RulesOf(v).Some?
    ensures var hs, rules := sd.hosts.hosts, RulesOf(v).value;
      var first := Grouped(name, groups, sd, v, b);
      var second := Grouped(name, first.groups, sd, v, b);
      second.groups == first.groups
      && Writes(second.out.calls)
         == if Writes(first.out.calls) == [] || NoTags(rules) || (|hs| == 1 && AllDemanded(rules)) then []
            else Writes(first.out.calls)
  {
    var hs, rules := sd.hosts.hosts, RulesOf(v).value;
    var first := Grouped(name, groups, sd, v, b);
    GroupedWrites(name, groups, sd, v, b);
    GroupedWrites(name, first.groups, sd, v, b);
    if Writes(first.out.calls) != [] {
      PartitionRevalidated(hs, rules, sd.target, |hs|);
    }
  }

  // ---------------------------------------------------------------- the whole pass

  /** The definition takes the grouped branch and its stored groups fail the check. */
  ghost predicate Recomputes(groups: Groups, sd: ServiceDefinition) {
    IsGrouped(sd) && sd.hosts.HostList?
    && var rules := RulesOf(Get(sd.params, RulesKey).value);
    rules.Some? && !GroupsValid(groups, rules.value, |sd.hosts.hosts|)
  }

  lemma FallbackQuiet(service: string, index: nat, sd: ServiceDefinition, b: Backends)
    ensures Writes(Fallback(service, index, sd, b).calls) == []
  {
    FilterNone(Fallback(service, index, sd, b).calls, IsWrite);
  }

  lemma DefinitionSettled(name: string, groups: Groups, service: string, index: nat, sd: ServiceDefinition, b: Backends)
    requires !Recomputes(groups, sd)
    ensures var s := Definition(name, groups, service, index, sd, b);
      s.groups == groups && Writes(s.out.calls) == []
  {
    if IsGrouped(sd) {
      var v := Get(sd.params, RulesKey).value;
      if sd.hosts.HostList? && RulesOf(v).Some? {
        GroupedWrites(name, groups, sd, v, b);
      }
    } else {
      FallbackQuiet(service, index, sd, b);
    }
  }

  lemma {:induction false} DefinitionsSettled(name: string, groups: Groups, service: string,
                                              defs: seq<ServiceDefinition>, index: nat, b: Backends)
    requires forall k :: 0 <= k < |defs| ==> !Recomputes(groups, defs[k])
    ensures var s := Definitions(name, groups, service, defs, index, b);
      s.groups == groups && Writes(s.out.calls) == []
    decreases |defs|
  {
    if defs != [] {
      var s := Definition(name, groups, service, index, defs[0], b);
      DefinitionSettled(name, groups, service, index, defs[0], b);
      if s.out.halt.None? {
        var rest := Definitions(name, groups, service, defs[1..], index + 1, b);
        DefinitionsSettled(name, groups, service, defs[1..], index + 1, b);
        FilterAppend(s.out.calls, rest.out.calls, IsWrite);
      }
    }
  }

  /**
   * When the stored groups already fit the rules of every grouped
   * definition, a whole pass writes nothing and leaves the groups as they
   * are.
   */
  lemma {:induction false} PassSettled(name: string, groups: Groups, services: Dict<seq<ServiceDefinition>>, b: Backends)
    requires forall i, k :: 0 <= i < |services| && 0 <= k < |services[i].1| ==> !Recomputes(groups, services[i].1[k])
    ensures var s := Services(name, groups, services, b);
      s.groups == groups && Writes(s.out.calls) == []
    decreases |services|
  {
    if services != [] {
      var s := Definitions(name, groups, services[0].0, services[0].1, 0, b);
      DefinitionsSettled(name, groups, services[0].0, services[0].1, 0, b);
      if s.out.halt.None? {
        var rest := Services(name, groups, services[1..], b);
        PassSettled(name, groups, services[1..], b);
        FilterAppend(s.out.calls, rest.out.calls, IsWrite);
      }
    }
  }

  /** Every write of a pass is for this stack instance and disables the invocation. */
  lemma {:induction false} PassWritesFlagged(name: string, groups: Groups, services: Dict<seq<ServiceDefinition>>, b: Backends)
    ensures forall c :: c in Writes(Services(name, groups, services, b).out.calls) ==>
      c.PutStackInstance? && c.name == name && c.disableInvocation
    decreases |services|
  {
    if services != [] {
      var s := Definitions(name, groups, services[0].0, services[0].1, 0, b);
      DefinitionsFlagged(name, groups, services[0].0, services[0].1, 0, b);
      if s.out.halt.None? {
        var rest := Services(name, s.groups, services[1..], b);
        PassWritesFlagged(name, s.groups, services[1..], b);
        FilterAppend(s.out.calls, rest.out.calls, IsWrite);
      }
    }
  }

  lemma {:induction false} DefinitionsFlagged(name: string, groups: Groups, service: string,
                                              defs: seq<ServiceDefinition>, index: nat, b: Backends)
    ensures forall c :: c in Writes(Definitions(name, groups, service, defs, index, b).out.calls) ==>
      c.PutStackInstance? && c.name == name && c.disableInvocation
    decreases |defs|
  {
    if defs != [] {
      var s := Definition(name, groups, service, index, defs[0], b);
      DefinitionFlagged(name, groups, service, index, defs[0], b);
      if s.out.halt.None? {
        var rest := Definitions(name, s.groups, service, defs[1..], index + 1, b);
        DefinitionsFlagged(name, s.groups, service, defs[1..], index + 1, b);
        FilterAppend(s.out.calls, rest.out.calls, IsWrite);
      }
    }
  }

  lemma DefinitionFlagged(name: string, groups: Groups, service: string, index: nat, sd: ServiceDefinition, b: Backends)
    ensures forall c :: c in Writes(Definition(name, groups, service, index, sd, b).out.calls) ==>
      c.PutStackInstance? && c.name == name && c.disableInvocation
  {
    if IsGrouped(sd) {
      var v := Get(sd.params, RulesKey).value;
      if sd.hosts.HostList? && RulesOf(v).Some? {
        GroupedWrites(name, groups, sd, v, b);
      }
    } else {
      FallbackQuiet(service, index, sd, b);
    }
  }

  /** Publishing stops only with an `AnsibleError`, never with `exit`. */
  lemma {:induction false} HostEntriesFail(tag: string, es: seq<Entry>, sd: ServiceDefinition, b: Backends)
    ensures HostEntries(tag, es, sd, b).halt.Some? ==> HostEntries(tag, es, sd, b).halt.value.Failed?
  {
    if es != [] {
      HostEntriesFail(tag, es[1..], sd, b);
    }
  }

  lemma {:induction false} PublishFails(gs: Groups, sd: ServiceDefinition, b: Backends)
    ensures Publish(gs, sd, b).halt.Some? ==> Publish(gs, sd, b).halt.value.Failed?
  {
    if gs != [] {
      HostEntriesFail(gs[0].0, gs[0].1, sd, b);
      PublishFails(gs[1..], sd, b);
    }
  }

  predicate IsExit(o: Out) {
    o.halt.Some? && o.halt.value.Exited?
  }

  /**
   * `exit(1)` ends a definition exactly when it recomputes its groups and
   * the hosts run out. It leaves no call and the stored groups untouched.
   */
  lemma ExitOnlyFromPartition(name: string, groups: Groups, service: string, index: nat, sd: ServiceDefinition, b: Backends)
    ensures var s := Definition(name, groups, service, index, sd, b);
      var outOfHosts := Recomputes(groups, sd)
        && Partition(sd.hosts.hosts, RulesOf(Get(sd.params, RulesKey).value).value, sd.target).Exit?;
      (IsExit(s.out) <==> outOfHosts)
      && (IsExit(s.out) ==> s == Step(Out([], Some(Exited(1))), groups))
  {
    if IsGrouped(sd) {
      var v := Get(sd.params, RulesKey).value;
      if sd.hosts.HostList? && RulesOf(v).Some? {
        GroupedWrites(name, groups, sd, v, b);
        PublishFails(groups, sd, b);
        var a := Partition(sd.hosts.hosts, RulesOf(v).value, sd.target);
        if a.Done? {
          PublishFails(a.groups, sd, b);
        }
      }
    }
  }

  // ---------------------------------------------------------------- the fallback branch

  /** The calls of the fallback branch up to its secrets. */
  function FallbackCalls(service: string, index: nat, sd: ServiceDefinition): seq<Call> {
    [AddGroup(service)] + HostCalls(FallbackHosts(service, index, sd.hosts), service)
    + ([SetVariable(service, TargetKey, Str(sd.target))] + VarCalls(service, sd.params))
  }

  lemma FallbackSplit(service: string, index: nat, sd: ServiceDefinition, b: Backends)
    requires !sd.hosts.NoHosts?
    ensures Fallback(service, index, sd, b)
         == Out(FallbackCalls(service, index, sd) + Secured(service, sd.secrets, b).calls, Secured(service, sd.secrets, b).halt)
  {
    var hosts := [AddGroup(service)] + HostCalls(FallbackHosts(service, index, sd.hosts), service);
    Concat3(hosts, [SetVariable(service, TargetKey, Str(sd.target))], VarCalls(service, sd.params));
  }

  /**
   * A service without group rules shows one group named after it, holding
   * its hosts. It writes nothing. How it ends is how its secrets resolve.
   */
  lemma FallbackShown(service: string, index: nat, sd: ServiceDefinition, b: Backends)
    requires !sd.hosts.NoHosts?
    ensures var o := Fallback(service, index, sd, b);
      Writes(o.calls) == []
      && Shown(o.calls) == [AddGroup(service)] + HostCalls(FallbackHosts(service, index, sd.hosts), service)
      && o.halt == Secured(service, sd.secrets, b).halt
  {
    var hosts := [AddGroup(service)] + HostCalls(FallbackHosts(service, index, sd.hosts), service);
    var vars := [SetVariable(service, TargetKey, Str(sd.target))] + VarCalls(service, sd.params);
    var sec := Secured(service, sd.secrets, b).calls;
    FallbackSplit(service, index, sd, b);
    FallbackQuiet(service, index, sd, b);
    FilterAll(hosts, Shows);
    FilterNone(vars, Shows);
    SecuredQuiet(service, sd.secrets, b);
    FilterAppend(hosts, vars, Shows);
    FilterAppend(hosts + vars, sec, Shows);
  }

  /** The fallback group gets the infrastructure target and every provisioning parameter as variables. */
  lemma FallbackVariables(service: string, index: nat, sd: ServiceDefinition, b: Backends)
    requires !sd.hosts.NoHosts?
    ensures var o := Fallback(service, index, sd, b);
      SetVariable(service, TargetKey, Str(sd.target)) in o.calls
      && forall k :: 0 <= k < |sd.params| ==> SetVariable(service, sd.params[k].0, sd.params[k].1) in o.calls
  {
    var calls := FallbackCalls(service, index, sd);
    var n := 1 + |FallbackHosts(service, index, sd.hosts)|;
    FallbackSplit(service, index, sd, b);
    assert calls[n] == SetVariable(service, TargetKey, Str(sd.target));
    forall k | 0 <= k < |sd.params|
      ensures SetVariable(service, sd.params[k].0, sd.params[k].1) in calls
    {
      assert calls[n + 1 + k] == VarCalls(service, sd.params)[k];
    }
  }

  /**
   * A definition that has a `hosts` attribute keeps its hosts when the list
   * is not empty. With hosts of None or an empty list it gets the single
   * host `service_index`, and reading its digits back gives the index. (A
   * definition without the attribute fails instead; see `Fallback`.)
   */
  lemma SyntheticHost(service: string, index: nat, hosts: HostsAttr)
    requires !hosts.NoHosts?
    ensures var fh := FallbackHosts(service, index, hosts);
      (hosts.HostList? && hosts.hosts != [] ==> fh == hosts.hosts)
      && (!(hosts.HostList? && hosts.hosts != []) ==>
            |fh| == 1 && fh[0][..|service| + 1] == service + "_"
            && var digits := fh[0][|service| + 1..];
            (forall i :: 0 <= i < |digits| ==> IsDigit(digits[i])) && DigitsValue(digits) == index)
  {
    var h := service + "_" + NatToString(index);
    assert h[|service| + 1..] == NatToString(index);
    NatToStringValue(index);
  }

  // ---------------------------------------------------------------- secrets

  /**
   * Reading `secrets` fails as unbound exactly when the definition has a
   * `secrets` attribute and the handler names none of the three backends.
   */
  lemma SecuredUnbound(group: string, attr: SecretsAttr, b: Backends)
    ensures Secured(group, attr, b).halt == Some(Failed(SecretFailed(Secrets.SecretsUnbound)))
        <==> !attr.NoSecrets? && !KnownHandler(b.handler)
  {
    if attr.SecretRefs? {
      Secrets.ResolveUnbound(b.handler, attr.refs, b.vault, b.conjurAddress, b.conjurAccount, b.conjurVerify, b.conjur);
    }
  }

  /**
   * With the base64 backend, the secrets become variables exactly when every
   * value decodes. Each key is then set to its decoded value, and a failure
   * sets none of them.
   */
  lemma SecuredBase64(group: string, refs: Dict<string>, b: Backends)
    requires b.handler == "base64" && UniqueKeys(refs)
    ensures var o := Secured(group, SecretRefs(refs), b);
      (o.halt.None? <==> forall k :: 0 <= k < |refs| ==> Secrets.DecodeSecret(refs[k].1).Some?)
      && (o.halt.Some? ==> o == Fail(SecretFailed(Secrets.SecretNotDecodable)))
      && (o.halt.None? ==>
            |o.calls| == |refs|
            && forall k :: 0 <= k < |refs| ==>
                 SetVariable(group, refs[k].0, Str(Secrets.DecodeSecret(refs[k].1).value)) in o.calls)
  {
    Secrets.Base64SecretsAllOrNothing(refs);
    var o := Secured(group, SecretRefs(refs), b);
    if o.halt.None? {
      var m := Secrets.Base64Secrets(refs).value;
      assert UniqueKeys(m) by {
        assert Keys(m) == Keys(refs);
      }
      forall k | 0 <= k < |refs|
        ensures SetVariable(group, refs[k].0, Str(Secrets.DecodeSecret(refs[k].1).value)) in o.calls
      {
        assert refs[k].0 == Keys(refs)[k] == Keys(m)[k];
        GetAt(m, k);
        assert o.calls[k] == SetVariable(group, m[k].0, Str(m[k].1));
      }
    }
  }

  /**
   * A pass that fails keeps the calls it made before the failure. A service
   * with secrets of None shows its group, its synthetic host and its target,
   * and then fails.
   */
  lemma FailureKeepsEarlierCalls()
    ensures Fallback("web", 0, ServiceDefinition(NullHosts, [], NullSecrets, "t1"),
                     Backends("base64", map[], "", "", Secrets.VerifyFlag(true), map[]))
         == Out([AddGroup("web"), AddHost("web_0", "web"), SetVariable("web", TargetKey, Str("t1"))],
                Some(Failed(SecretsNotAMapping)))
  {
    var sd := ServiceDefinition(NullHosts, [], NullSecrets, "t1");
    assert NatToString(0) == "0";
    assert "web" + "_" + NatToString(0) == "web_0";
    assert FallbackHosts("web", 0, NullHosts) == ["web_0"];
    assert HostCalls(["web_0"], "web") == [AddHost("web_0", "web")];
    assert VarCalls("web", []) == [];
    assert FallbackCalls("web", 0, sd) == [AddGroup("web"), AddHost("web_0", "web"), SetVariable("web", TargetKey, Str("t1"))];
    FallbackSplit("web", 0, sd, Backends("base64", map[], "", "", Secrets.VerifyFlag(true), map[]));
  }
}
