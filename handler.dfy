/**
 * The command the Kubernetes job of an `ansible` functional requirement runs.
 *
 * `create_command_args` stores a one-element list in `_command_args`. Its
 * only string adds a `runner` entry to `/etc/passwd` and then runs one of
 * three commands:
 *   - the service's own playbook, when `ansible_playbook_path` is set;
 *   - otherwise, when outputs are wanted, the bundled role playbook;
 *   - otherwise an ad-hoc `ansible` call of the role.
 * `delete_command_args` appends ` -e state=absent` to the string in that
 * same stored list.
 *
 * Provisioning parameters appear here as the text they format to.
 */
module Handler {
  import opened Wrappers
  import opened Dicts
  import opened Text
  import Inventory
  import Secrets

  const InventoryFile := "/opt/ansible/playbooks/inventory/stackl.yml"
  const RolePlaybook := "/opt/ansible/playbooks/stackl/playbook-role.yml"
  const Passwd := "echo \"${USER_NAME:-runner}:x:$(id -u):$(id -g):${USER_NAME:-runner} user:${HOME}:/sbin/nologin\" >> /etc/passwd"
  const SerialKey := "ansible_serial"
  const PlaybookKey := "ansible_playbook_path"
  const DefaultSerial := "10"
  const StateAbsent := " -e state=absent"

  /** The hosts of the service joined with commas, or `service_index` when it has none. */
  function Pattern(hosts: Option<seq<string>>, service: string, index: nat): string {
    match hosts
    case Some(hs) => Join(hs, ',')
    case None => service + "_" + NatToString(index)
  }

  function Serial(params: Dict<string>): string {
    Get(params, SerialKey).GetOr(DefaultSerial)
  }

  /** The service's own playbook, run against the stackl inventory. */
  function PlaybookRun(path: string): string {
    " && ansible-playbook " + path + " -v -i " + InventoryFile
  }

  /** The bundled playbook that includes the role on `pattern`, `serial` hosts at a time. */
  function RoleRun(role: string, pattern: string, serial: string): string {
    " && ansible-playbook " + RolePlaybook + " -e ansible_role=" + role + " -i " + InventoryFile
    + " -e pattern=" + pattern + " -e serial=" + serial + " "
  }

  function OutputsArg(outputFile: string): string {
    "-e outputs_path=" + outputFile + " "
  }

  /** The ad-hoc `ansible` call of the role on `pattern`. */
  function AdHocRun(pattern: string, role: string): string {
    " && ansible " + pattern + " -m include_role -v -i " + InventoryFile + " -a name=" + role
  }

  /** The single string of `create_command_args`. */
  function CreateCommand(service: string, role: string, params: Dict<string>, hosts: Option<seq<string>>,
                         index: nat, outputFile: Option<string>): string
  {
    Passwd
    + match Get(params, PlaybookKey)
      case Some(path) => PlaybookRun(path)
      case None =>
        if outputFile.Some? then RoleRun(role, Pattern(hosts, service, index), Serial(params)) + OutputsArg(outputFile.value)
        else AdHocRun(Pattern(hosts, service, index), role)
  }

  lemma Concat3(a: string, b: string, c: string)
    ensures (a + b) + c == a + (b + c)
  {
  }

  /** The three branches of the create command, one at a time. */
  lemma CreateCommandCases(service: string, role: string, params: Dict<string>, hosts: Option<seq<string>>,
                           index: nat, outputFile: Option<string>)
    ensures var cmd := CreateCommand(service, role, params, hosts, index, outputFile);
      var path := Get(params, PlaybookKey);
      && (path.Some? ==> cmd == Passwd + PlaybookRun(path.value))
      && (path.None? && outputFile.Some? ==>
            cmd == Passwd + (RoleRun(role, Pattern(hosts, service, index), Serial(params)) + OutputsArg(outputFile.value)))
      && (path.None? && outputFile.None? ==> cmd == Passwd + AdHocRun(Pattern(hosts, service, index), role))
  {
  }

  class AnsibleHandler {
    const service: string
    const functionalRequirement: string
    const params: Dict<string>
    const hosts: Option<seq<string>>
    const index: nat
    /** The output file of the `AnsibleOutput`, when the functional requirement has outputs. */
    const outputFile: Option<string>
    var commandArgs: array<string>

    /** The argument list `__init__` stores before any command is asked for. */
    constructor (service: string, functionalRequirement: string, params: Dict<string>,
                 hosts: Option<seq<string>>, index: nat, outputFile: Option<string>)
      ensures this.service == service && this.functionalRequirement == functionalRequirement
      ensures this.params == params && this.hosts == hosts && this.index == index
      ensures this.outputFile == outputFile
      ensures fresh(commandArgs)
      ensures commandArgs[..] == [service, "-m", "include_role", "-v", "-i", InventoryFile, "-a",
                                  "name=" + functionalRequirement]
    {
      this.service := service;
      this.functionalRequirement := functionalRequirement;
      this.params := params;
      this.hosts := hosts;
      this.index := index;
      this.outputFile := outputFile;
      var args := new string[8];
      args[0], args[1], args[2], args[3] := service, "-m", "include_role", "-v";
      args[4], args[5], args[6], args[7] := "-i", InventoryFile, "-a", "name=" + functionalRequirement;
      commandArgs := args;
    }

    function Create(): string {
      CreateCommand(service, functionalRequirement, params, hosts, index, outputFile)
    }

    /**
     * `create_command_args`: a fresh one-element list, stored and returned,
     * whose string is extended in place by the branch that applies.
     */
    method CreateCommandArgs() returns (args: array<string>)
      modifies this
      ensures fresh(args) && commandArgs == args
      ensures args.Length == 1 && args[0] == Create()
    {
      CreateCommandCases(service, functionalRequirement, params, hosts, index, outputFile);
      args := new string[1];
      args[0] := Passwd;
      commandArgs := args;
      var serial := DefaultSerial;
      var given := Get(params, SerialKey);
      if given.Some? {
        serial := given.value;
      }
      assert serial == Serial(params);
      var path := Get(params, PlaybookKey);
      if path.Some? {
        args[0] := args[0] + PlaybookRun(path.value);
      } else if outputFile.Some? {
        var pattern := Pattern(hosts, service, index);
        args[0] := args[0] + RoleRun(functionalRequirement, pattern, serial);
        args[0] := args[0] + OutputsArg(outputFile.value);
        Concat3(Passwd, RoleRun(functionalRequirement, pattern, serial), OutputsArg(outputFile.value));
      } else {
        var pattern := Pattern(hosts, service, index);
        args[0] := args[0] + AdHocRun(pattern, functionalRequirement);
      }
    }

    /**
     * `delete_command_args`: the create command with ` -e state=absent`,
     * appended to the element of the list `create_command_args` stored, so
     * the stored list carries it too.
     */
    method DeleteCommandArgs() returns (args: array<string>)
      modifies this
      ensures fresh(args) && commandArgs == args
      ensures args.Length == 1 && args[0] == Create() + StateAbsent
    {
      args := CreateCommandArgs();
      args[0] := args[0] + StateAbsent;
    }
  }

  // ---------------------------------------------------------------- properties

  /** `serial` is 10 unless `ansible_serial` is given. */
  lemma SerialDefault(params: Dict<string>)
    ensures SerialKey !in Keys(params) ==> Serial(params) == DefaultSerial
    ensures SerialKey in Keys(params) ==> Get(params, SerialKey) == Some(Serial(params))
  {
    GetSome(params, SerialKey);
  }

  /**
   * With `ansible_playbook_path` set, the command is the same whatever the
   * hosts, the index and the outputs: that branch comes first.
   */
  lemma PlaybookPathPreferred(service: string, role: string, params: Dict<string>,
                              hosts1: Option<seq<string>>, index1: nat, output1: Option<string>,
                              hosts2: Option<seq<string>>, index2: nat, output2: Option<string>)
    requires PlaybookKey in Keys(params)
    ensures CreateCommand(service, role, params, hosts1, index1, output1)
         == CreateCommand(service, role, params, hosts2, index2, output2)
  {
    GetSome(params, PlaybookKey);
  }

  /** Only the outputs branch uses `serial`: without outputs, `ansible_serial` changes nothing. */
  lemma SerialOnlyWithOutputs(service: string, role: string, params: Dict<string>,
                              hosts: Option<seq<string>>, index: nat, serial: string)
    ensures CreateCommand(service, role, params, hosts, index, None)
         == CreateCommand(service, role, Put(params, SerialKey, serial), hosts, index, None)
  {
    assert Get(Put(params, SerialKey, serial), PlaybookKey) == Get(params, PlaybookKey);
  }

  /**
   * The hosts pattern splits back into the hosts when there is at least one
   * and none holds a comma. These are the hosts the inventory plugin's
   * fallback group holds.
   */
  lemma PatternHosts(hs: seq<string>, service: string, index: nat)
    requires hs != []
    requires forall i :: 0 <= i < |hs| ==> ',' !in hs[i]
    ensures Split(Pattern(Some(hs), service, index), ',') == hs
    ensures Split(Pattern(Some(hs), service, index), ',')
         == Inventory.FallbackHosts(service, index, Inventory.HostList(hs))
  {
    SplitJoin(hs, ',');
  }

  /**
   * Without hosts, the pattern is the synthetic host the inventory plugin
   * adds for a service without hosts.
   */
  lemma PatternSyntheticHost(service: string, index: nat)
    ensures [Pattern(None, service, index)] == Inventory.FallbackHosts(service, index, Inventory.NullHosts)
  {
  }

  /**
   * An empty host list is not None, so the pattern is empty, while the
   * inventory plugin gives such a service its synthetic host.
   */
  lemma PatternEmptyHosts(service: string, index: nat)
    ensures Pattern(Some([]), service, index) == ""
    ensures Inventory.FallbackHosts(service, index, Inventory.HostList([])) == [Pattern(None, service, index)]
  {
  }

  // ---------------------------------------------------------------- the secret handler option

  /** The kind of secret handler the agent was configured with. */
  datatype SecretHandlerKind = VaultHandler | Base64Handler | ConjurHandler | OtherHandler

  /** The `secret_handler` option written into the inventory configuration by `__init__`. */
  function PluginHandler(kind: SecretHandlerKind): string {
    match kind
    case VaultHandler => "vault"
    case Base64Handler => "base64"
    case ConjurHandler => "conjur"
    case OtherHandler => "none"
  }

  /**
   * Any other secret handler configures the plugin with `none`. Every
   * service definition with a `secrets` attribute then fails as unbound,
   * and none fails that way with the three known handlers.
   */
  lemma PluginHandlerSecrets(kind: SecretHandlerKind, group: string, attr: Inventory.SecretsAttr, b: Inventory.Backends)
    requires b.handler == PluginHandler(kind)
    ensures Inventory.Secured(group, attr, b).halt == Some(Inventory.Failed(Inventory.SecretFailed(Secrets.SecretsUnbound)))
        <==> !attr.NoSecrets? && kind.OtherHandler?
  {
    Inventory.SecuredUnbound(group, attr, b);
  }
}
