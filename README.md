# Stackl Ansible handler: group reconciliation, secrets and the job command

This project models the core of the Stackl agent's Ansible handler
(`stackl/agent/agent/kubernetes/handlers/ansible_handler.py`) in Dafny and
proves properties of that model. It covers four parts:

- **Group reconciliation.** `check_groups` decides whether the groups stored
  on a stack instance still fit a service's `stackl_inventory_groups` rules.
  `create_groups` partitions the service's hosts among the tags of those
  rules, consuming the host list from the front, or calls `exit(1)` when the
  hosts run out.
- **The `stackl` inventory plugin's `parse`.** For every service definition it
  takes one of two branches:
  - the grouped branch: check, maybe recreate and write back with
    `disable_invocation`, then publish every stored group with its hosts,
    parameters and secrets;
  - the fallback branch: one group named after the service.
  Every exception is wrapped in one `AnsibleError`. The `SystemExit` raised
  by the `exit(1)` of `create_groups` is not caught by `except Exception`
  and passes through.
- **The secret backends.**
  - Vault: KV-v2 reads, flattened into one mapping.
  - base64: `b64decode(secret + "===")`, strict UTF-8, then `rstrip()`.
  - Conjur: a variable path taken from `!var`, one request per reference, and
    the response body as the value.
  - The `secret_handler` option chooses among them.
- **The job command.** These are `create_command_args` and
  `delete_command_args`, the `_command_args` set up in `__init__`, and the
  choice of the `secret_handler` written into the plugin configuration.

Modules:

- `Wrappers`: `Option` and `Result`.
- `Dicts`: Python dictionaries as ordered association lists. Assignment
  updates a key in place and appends a new one.
- `Text`: `str.isspace`, `strip`, `split` and `join`, and `str(int)`.
- `Utf8`: the strict codec.
- `Base64`: the decoder state machine and an encoder to prove round trips.
- `Secrets`: the three backends and their selection.
- `Groups`: the check, the partition, and the `HostPool` that
  `create_groups` consumes in place.
- `Inventory`: the pass, as ghost specification functions. The methods write
  to an `Effects` log and a `StackInstance`, and are proved against those
  functions.
- `Handler`: the command strings and the `AnsibleHandler` class whose
  `commandArgs` array the command properties replace.

The inventory, the Stackl API, Vault and Conjur are sinks or inputs. An
`Effects` object records, in order, every `add_group`, `add_host`,
`set_variable` and `put_stack_instance` call. What Vault and Conjur answer is
a map given as a parameter.

### Behaviour worth knowing

- **Shared hosts.** Every tag of a rule receives the same first `count`
  hosts, and the pool then loses `count` hosts once per rule
  (`Groups.PartitionSharedHosts`, `Groups.AllotRest`).
- **Running out of hosts.** `create_groups` calls `exit(1)`. The resulting
  `SystemExit` is not caught by `except Exception`, so nothing is written
  and no `AnsibleError` is raised (`Inventory.ExitOnlyFromPartition`).
- **Repeated writes.** The check multiplies each demand by the number of
  hosts, while the partition does not. So, when the rules name a tag, a
  fresh partition of two or more hosts fails the check. A later grouped definition of the same pass, with
  the same hosts and rules, writes the same groups again
  (`Groups.PartitionRevalidated`, `Groups.PartitionFailsItsOwnCheck`,
  `Inventory.ReparseWrites`). A tag with count 0 is required by the check
  but never created by the partition.
- **Calls before a failure.** When a later step raises, the inventory calls
  made before it have already happened (`Inventory.FailureKeepsEarlierCalls`,
  `Inventory.GroupedShowsStored`).
- **Conjur values.** The body of the Conjur response, `r.text`, is stored
  untrimmed (`Secrets.ConjurSecretsSpec`).
- **base64 round trip.** The decoded text is `rstrip()`ped, so trailing
  whitespace of a secret is lost (`Secrets.DecodeSecretRoundTrip`).
- **Padding.** `"==="` is appended to every secret, and the lenient decoder
  skips the padding it does not need (`Base64.DecodeEncodeUnpadded`,
  `Base64.DecodeDanglingCharacter`).
- **Hosts pattern.** An empty host list joins to an empty pattern in the
  command, while the plugin gives such a service its synthetic host
  (`Handler.PatternEmptyHosts`).

## Model

| member | source | states |
|---|---|---|
| Groups.CheckGroups | stackl/agent/agent/kubernetes/handlers/ansible_handler.py:82-93 | the check returns true exactly when every tag some rule names is stored with demand × number-of-hosts entries, the demand being the sum of the counts of the rules listing it, once per listing |
| Groups.CountDemand | stackl/agent/agent/kubernetes/handlers/ansible_handler.py:81-86 | the tallied dictionary has unique keys and holds, for exactly the tags some rule names, their demand |
| Groups.AddCounts | stackl/agent/agent/kubernetes/handlers/ansible_handler.py:84-85 | after `count_group_dict[tag] += count` for every tag of a rule, each tag is present when it was before or is listed, and gained `count` once per listing |
| Groups.MentionedSpec | stackl/agent/agent/kubernetes/handlers/ansible_handler.py:83-85 | a tag is counted exactly when some rule lists it |
| Groups.DemandUnmentioned | stackl/agent/agent/kubernetes/handlers/ansible_handler.py:83-85 | a tag no rule lists has no demand |
| Groups.ValidIgnoresOtherTags | stackl/agent/agent/kubernetes/handlers/ansible_handler.py:87-93 | binding a tag no rule names never changes the verdict of the check |
| Groups.NoRulesValid | stackl/agent/agent/kubernetes/handlers/ansible_handler.py:87-93 | with no rules any stored groups pass the check |
| Groups.AppendHosts | stackl/agent/agent/kubernetes/handlers/ansible_handler.py:99-110 | the inner loop exits exactly when the rule asks for more hosts than are left, and otherwise appends the first `count` hosts, with the target, in order |
| Groups.CreateGroups | stackl/agent/agent/kubernetes/handlers/ansible_handler.py:96-112 | the method returns the groups of the partition, or nothing on `exit(1)`, and leaves the host list as the partition leaves it |
| Groups.HostPool.constructor | stackl/agent/agent/kubernetes/handlers/ansible_handler.py:96 | the pool starts as the service's host list |
| Groups.PartitionContents | stackl/agent/agent/kubernetes/handlers/ansible_handler.py:96-112 | on success each tag holds exactly its demand of entries, rule by rule from the front of the pool, and is a key exactly when its demand is positive |
| Groups.PartitionEntries | stackl/agent/agent/kubernetes/handlers/ansible_handler.py:101-104 | every entry carries the infrastructure target and a host of the pool |
| Groups.AllotExit | stackl/agent/agent/kubernetes/handlers/ansible_handler.py:101-109 | `exit(1)` happens exactly when some rule with tags and a positive count asks, together with the rules before it, for more hosts than the pool holds |
| Groups.AllotRest | stackl/agent/agent/kubernetes/handlers/ansible_handler.py:111 | after the rules the pool has lost exactly its first total-count hosts, or all of them |
| Groups.AllotListAt | stackl/agent/agent/kubernetes/handlers/ansible_handler.py:98-111 | a run of the rules appends to a tag exactly the entries the dictionary-free description gives |
| Groups.AllotKeys | stackl/agent/agent/kubernetes/handlers/ansible_handler.py:98-111 | a tag becomes a key exactly when some entry is appended under it |
| Groups.ExpectedLength | stackl/agent/agent/kubernetes/handlers/ansible_handler.py:98-111 | on success each tag receives exactly its demand |
| Groups.AddTagsListAt | stackl/agent/agent/kubernetes/handlers/ansible_handler.py:98-110 | one rule appends its hosts under a tag once for every time it lists the tag |
| Groups.RepeatLength | stackl/agent/agent/kubernetes/handlers/ansible_handler.py:98-110 | `n` repetitions of the entries are `n` times as long, and empty exactly when there are no entries or `n` is 0 |
| Groups.PartitionRevalidated | stackl/agent/agent/kubernetes/handlers/ansible_handler.py:82-112 | a fresh partition passes the check exactly when the rules name no tag, or there is one host and every named tag has positive demand |
| Groups.PartitionFailsItsOwnCheck | stackl/agent/agent/kubernetes/handlers/ansible_handler.py:82-112 | two hosts and one rule for one host: the partition succeeds and fails the check |
| Groups.PartitionScenario | stackl/agent/agent/kubernetes/handlers/ansible_handler.py:96-112 | rules apply in order and consume the pool from the front |
| Groups.PartitionInsufficient | stackl/agent/agent/kubernetes/handlers/ansible_handler.py:105-109 | a rule asking for more hosts than there are exits and leaves the pool untouched |
| Groups.PartitionSharedHosts | stackl/agent/agent/kubernetes/handlers/ansible_handler.py:98-111 | two tags of one rule get the same host and the pool loses it once |
| Secrets.VaultSecretsOk | stackl/agent/agent/kubernetes/handlers/ansible_handler.py:115-124 | the Vault secrets resolve exactly when every referenced path can be read |
| Secrets.VaultSecretsLastWins | stackl/agent/agent/kubernetes/handlers/ansible_handler.py:120-123 | each key holds the value of its last binding in the data read, path after path |
| Secrets.MergeLastBinding | stackl/agent/agent/kubernetes/handlers/ansible_handler.py:122-123 | assigning every pair of the data leaves each key at its last value in the data, or its earlier value |
| Secrets.Base64SecretsAllOrNothing | stackl/agent/agent/kubernetes/handlers/ansible_handler.py:127-136 | the result is a mapping exactly when every value decodes, with the same keys in order and each decoded value; any failure is the single "could not decode" error |
| Secrets.DecodeSecretRoundTrip | stackl/agent/agent/kubernetes/handlers/ansible_handler.py:131-132 | base64 of the UTF-8 of a string, padded or not, decodes to the string without trailing whitespace, which is the string itself when it ends in no whitespace |
| Secrets.DecodeSecretExample | stackl/agent/agent/kubernetes/handlers/ansible_handler.py:127-136 | the unpadded `cGFzcw` decodes to `pass` |
| Secrets.CollectOk | stackl/agent/agent/kubernetes/handlers/ansible_handler.py:129-135 | the per-value loop succeeds exactly when every value resolves |
| Secrets.CollectError | stackl/agent/agent/kubernetes/handlers/ansible_handler.py:129-135 | when every failure is one error, that is the loop's error |
| Secrets.CollectValues | stackl/agent/agent/kubernetes/handlers/ansible_handler.py:129-135 | a successful loop keeps the keys in order and stores each resolved value |
| Secrets.NormalizeVerifySpec | stackl/agent/agent/kubernetes/handlers/ansible_handler.py:142-145 | `verify` becomes false (true) exactly when it was false (true) or a string equal to "false" ("true") ignoring case; any other string passes unchanged; the normalisation is idempotent |
| Secrets.NormalizeVerifyIgnoresCase | stackl/agent/agent/kubernetes/handlers/ansible_handler.py:142-145 | "FALSE" and "True" become booleans and "no" stays a string |
| Secrets.ConjurVariablePathSpec | stackl/agent/agent/kubernetes/handlers/ansible_handler.py:151 | the path is missing exactly when the reference holds no `!var`; otherwise it is the text after the first `!var`, cut at a second `!var` if any, stripped on both sides, whatever precedes or follows |
| Secrets.ConjurVariablePathPlain | stackl/agent/agent/kubernetes/handlers/ansible_handler.py:151 | a reference `!var <path>` with a trimmed path yields that path |
| Secrets.ConjurSecretsSpec | stackl/agent/agent/kubernetes/handlers/ansible_handler.py:139-160 | the Conjur secrets resolve exactly when every request is answered, with every key in order bound to the unstripped body |
| Secrets.BackendsNeverUnbound | stackl/agent/agent/kubernetes/handlers/ansible_handler.py:227-247 | none of the three backends fails the way an unbound `secrets` does |
| Secrets.ResolveUnbound | stackl/agent/agent/kubernetes/handlers/ansible_handler.py:227-250 | `secrets` is unbound exactly when the handler is none of vault, base64 and conjur |
| Inventory.SecuredUnbound | stackl/agent/agent/kubernetes/handlers/ansible_handler.py:266-284 | reading `secrets` fails as unbound exactly when the definition has a `secrets` attribute and the handler is unknown |
| Inventory.SecuredBase64 | stackl/agent/agent/kubernetes/handlers/ansible_handler.py:272-284 | with base64, a failure sets no secret, and success sets every key to its decoded value |
| Inventory.SetVariables | stackl/agent/agent/kubernetes/handlers/ansible_handler.py:263-265 | one `set_variable` per parameter, in order, appended to the calls |
| Inventory.AddHosts | stackl/agent/agent/kubernetes/handlers/ansible_handler.py:253-255 | one `add_host` per host, in order |
| Inventory.SetSecrets | stackl/agent/agent/kubernetes/handlers/ansible_handler.py:266-284 | the secret variables, or the failure, of the chosen backend |
| Inventory.AddHostEntry | stackl/agent/agent/kubernetes/handlers/ansible_handler.py:221-250 | one group entry: its host, every parameter, then the secrets |
| Inventory.AddGroupEntries | stackl/agent/agent/kubernetes/handlers/ansible_handler.py:221-250 | every entry of a group in order, stopping at the first failure |
| Inventory.PublishGroups | stackl/agent/agent/kubernetes/handlers/ansible_handler.py:219-250 | every stored group, then its entries, stopping at the first failure |
| Inventory.ParseGrouped | stackl/agent/agent/kubernetes/handlers/ansible_handler.py:202-250 | the calls, the halt and the new stored groups are those of the grouped branch |
| Inventory.ParseFallback | stackl/agent/agent/kubernetes/handlers/ansible_handler.py:251-284 | the calls and the halt are those of the fallback branch |
| Inventory.ParseDefinition | stackl/agent/agent/kubernetes/handlers/ansible_handler.py:199-284 | a definition takes the grouped branch exactly when it has `hosts` and the rules parameter |
| Inventory.ParseService | stackl/agent/agent/kubernetes/handlers/ansible_handler.py:198-284 | the definitions of a service in order, numbered from 0, stopping at the first halt |
| Inventory.Parse | stackl/agent/agent/kubernetes/handlers/ansible_handler.py:197-287 | the services in order; the log, the halt and the stored groups are those of the whole pass |
| Inventory.Effects.Record | stackl/agent/agent/kubernetes/handlers/ansible_handler.py:220-225 | each call to the inventory or the API is appended to the log |
| Inventory.GroupedWrites | stackl/agent/agent/kubernetes/handlers/ansible_handler.py:202-218 | `put_stack_instance` happens exactly when the check fails and the partition succeeds, once, with the new groups and `disable_invocation`; the groups are then replaced wholesale, kept when the check passes, and `exit(1)` alone happens when the hosts run out |
| Inventory.GroupedShowsStored | stackl/agent/agent/kubernetes/handlers/ansible_handler.py:219-226 | the groups and hosts shown are those stored afterwards, in order, and a prefix of them when a later step fails |
| Inventory.PublishShown | stackl/agent/agent/kubernetes/handlers/ansible_handler.py:219-226 | publishing writes nothing and shows each group followed by its hosts |
| Inventory.HostEntriesShown | stackl/agent/agent/kubernetes/handlers/ansible_handler.py:221-250 | the entries of a group show their hosts in order and write nothing |
| Inventory.ReparseWrites | stackl/agent/agent/kubernetes/handlers/ansible_handler.py:202-218 | a later grouped definition of the same pass, with the same hosts and rules, keeps the groups; it writes nothing when the first did not, or when the fresh groups pass the check, and otherwise repeats the same write |
| Inventory.PassSettled | stackl/agent/agent/kubernetes/handlers/ansible_handler.py:197-218 | when the stored groups fit every grouped definition, a whole pass writes nothing and keeps them |
| Inventory.PassWritesFlagged | stackl/agent/agent/kubernetes/handlers/ansible_handler.py:212-218 | every write of a pass is for this stack instance with `disable_invocation` |
| Inventory.ExitOnlyFromPartition | stackl/agent/agent/kubernetes/handlers/ansible_handler.py:105-109 | `exit(1)` ends a definition exactly when it recomputes its groups and the hosts run out, with no call made and the groups untouched |
| Inventory.FallbackShown | stackl/agent/agent/kubernetes/handlers/ansible_handler.py:251-259 | the fallback shows one group named after the service with its hosts, writes nothing, and ends as its secrets do |
| Inventory.FallbackVariables | stackl/agent/agent/kubernetes/handlers/ansible_handler.py:260-265 | the fallback group gets every provisioning parameter as a variable |
| Inventory.SyntheticHost | stackl/agent/agent/kubernetes/handlers/ansible_handler.py:253-259 | a definition with hosts keeps them when the list is not empty; with hosts of None or an empty list its single host is `service_index`, whose digits read back as the index |
| Inventory.FailureKeepsEarlierCalls | stackl/agent/agent/kubernetes/handlers/ansible_handler.py:252-287 | a definition whose secrets are None shows its group, host and target, then fails |
| Handler.AnsibleHandler.constructor | stackl/agent/agent/kubernetes/handlers/ansible_handler.py:409-413 | the initial argument list runs the role ad hoc on the service through the stackl inventory |
| Handler.AnsibleHandler.CreateCommandArgs | stackl/agent/agent/kubernetes/handlers/ansible_handler.py:415-448 | a fresh one-element list, stored and returned, holding the create command |
| Handler.AnsibleHandler.DeleteCommandArgs | stackl/agent/agent/kubernetes/handlers/ansible_handler.py:450-459 | the stored list holds the create command followed by ` -e state=absent` |
| Handler.SerialDefault | stackl/agent/agent/kubernetes/handlers/ansible_handler.py:425-427 | `serial` is 10 unless `ansible_serial` is given, and then it is that value |
| Handler.PlaybookPathPreferred | stackl/agent/agent/kubernetes/handlers/ansible_handler.py:428-430 | with a playbook path the command does not depend on hosts, index or outputs |
| Handler.SerialOnlyWithOutputs | stackl/agent/agent/kubernetes/handlers/ansible_handler.py:425-446 | without outputs `ansible_serial` changes nothing |
| Handler.PatternHosts | stackl/agent/agent/kubernetes/handlers/ansible_handler.py:432-433 | the joined host pattern splits back into the hosts, the same hosts the plugin's fallback group holds |
| Handler.PatternSyntheticHost | stackl/agent/agent/kubernetes/handlers/ansible_handler.py:434-435 | with hosts of None the pattern is the plugin's synthetic host |
| Handler.PatternEmptyHosts | stackl/agent/agent/kubernetes/handlers/ansible_handler.py:432-435 | an empty host list gives an empty pattern while the plugin uses the synthetic host |
| Handler.PluginHandlerSecrets | stackl/agent/agent/kubernetes/handlers/ansible_handler.py:337-371 | any other secret handler configures `none`, and then every definition with secrets fails as unbound, which none does with the three known handlers |
| Base64.DecodeEncodeUnpadded | stackl/agent/agent/kubernetes/handlers/ansible_handler.py:131 | unpadded base64 with `"==="` appended decodes back to the bytes |
| Base64.DecodeEncodePadded | stackl/agent/agent/kubernetes/handlers/ansible_handler.py:131 | padded base64 with `"==="` appended decodes back to the bytes |
| Base64.DecodeDanglingCharacter | stackl/agent/agent/kubernetes/handlers/ansible_handler.py:131 | a single data character left over in the last quantum makes decoding fail, whatever padding follows |
| Base64.RunFeed | stackl/agent/agent/kubernetes/handlers/ansible_handler.py:131 | the decoder can be run on a prefix of data and then on the rest |
| Base64.FeedQuad | stackl/agent/agent/kubernetes/handlers/ansible_handler.py:131 | the decoder's position in its quantum advances by one per data character |
| Utf8.DecodeEncode | stackl/agent/agent/kubernetes/handlers/ansible_handler.py:131-132 | strict UTF-8 decoding inverts encoding |
| Text.RStrip | stackl/agent/agent/kubernetes/handlers/ansible_handler.py:132 | `rstrip()` keeps a prefix, drops only whitespace, and ends in none |
| Text.StripSpec | stackl/agent/agent/kubernetes/handlers/ansible_handler.py:151 | `strip()` removes whitespace on both sides and keeps the middle |
| Text.SecondFieldMissing | stackl/agent/agent/kubernetes/handlers/ansible_handler.py:151 | `split(sep)[1]` raises exactly when `sep` does not occur |
| Text.SplitJoin | stackl/agent/agent/kubernetes/handlers/ansible_handler.py:433 | splitting a comma-joined list of comma-free strings gives the list back |
| Text.NatToStringValue | stackl/agent/agent/kubernetes/handlers/ansible_handler.py:257-258 | `str(index)` reads back as the index |
| Dicts.PutKeys | stackl/agent/agent/kubernetes/handlers/ansible_handler.py:122-123 | assignment keeps the order of keys and appends a new key at the end |
| Dicts.PutKeepsUniqueKeys | stackl/agent/agent/kubernetes/handlers/ansible_handler.py:122-123 | assignment never duplicates a key |
| Dicts.GetSome | stackl/agent/agent/kubernetes/handlers/ansible_handler.py:426 | a key is found exactly when it is one of the keys |

## Left out

- Network and file I/O are parameters or left out. This covers the Stackl
  API client, reading the Vault and Conjur token files, `hvac`, `requests`,
  the base64 encoding of the Conjur token, `print` and `environ`. What Vault
  and Conjur answer is a map given to the model. A missing answer stands for
  any failed read or request.
- The plugin's `verify_file`, its option declarations, and the rest of
  `__init__` are not part of this model. That means the Kubernetes volumes,
  the config-map data, the environment list and the `AnsibleOutput` set-up.
  From `AnsibleOutput` only its output file is kept, as an option.
- Groups.CreateGroups: rule counts are natural numbers. Negative counts,
  which Python's `range` and slice deletion would accept, are not modelled.
- Base64.Decode: characters outside the base64 alphabet and `=` are treated
  as a failure. Python's non-strict decoder discards them.
- Inventory.Parse: an error's message text is not modelled, only its cause.
  `put_stack_instance` is assumed to succeed, because the API is a sink.
- Inventory.Parse: secrets are resolved again for every host of a group, as
  in the code. The backends are fixed maps, so every resolution gives the
  same result. Different answers between two reads are not modelled.
- Inventory.Parse: provisioning parameter values are a small `Value`
  datatype (string, number, boolean, None, rules). Other JSON shapes are
  not distinguished.
- Secrets.VaultSecrets: the values a KV-v2 read returns are modelled as
  strings. Vault can hold other JSON values, and those are passed through
  to the inventory unchanged; the model does not distinguish them.
- Handler.CreateCommand: parameters enter the command as the text they
  format to, and that formatting is not modelled.
- Handler.AnsibleHandler: `self._output` is an option whose absence stands
  for a requirement without outputs.
- Groups.CreateGroups: `del hosts[0:count]` changes the service
  definition's host list in place. `HostPool` models that, but nothing in
  the pass reads the list afterwards, so `Inventory.Grouped` works on the
  value.
