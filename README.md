# sloth-k8s: a Dafny model of the Sloth workload, its AlertWindows validator and the `slos` relation library

The sloth-k8s charm runs Sloth, a generator that turns SLO specifications into Prometheus
alerting rules. This project models three pieces of it and proves properties about them.

- **The workload** (`Sloth` in src/sloth.py):
  - On each reconcile it makes sure two directories exist in the container: `/etc/sloth/slos` and `/etc/sloth/rules`.
  - It writes a built-in Prometheus availability SLO and every SLO specification received over the relation, one YAML file per service.
  - It runs `sloth generate -i <spec>` on each file whose content changed, and stores the generator's stdout as the rules file.
  - `get_alert_rules` gathers the `groups` of every generated rules file.
  - `version` extracts the binary's version with a regular expression. `sloth_command_line` builds the `serve` command line.
- **The AlertWindows validator** (src/alert_windows_models.py):
  - It checks the `kind` and `apiVersion` literals and the duration grammar `^\d+(\.\d+)?[smhdwy]$`.
  - It checks that the error budget is in (0, 100], and that all four windows are present.
- **The relation library** (lib/charms/sloth_k8s/v0/slo.py):
  - `SLOSpec` validation.
  - The provider, which validates a list of specifications and publishes them, `---`-joined, in the unit databag of every relation.
  - The requirer, which collects the valid documents from every unit of every relation.

## Layout

- **`yaml_values.dfy`** (`YamlValues`)
  - The values PyYAML hands to Python. A mapping is an ordered list of pairs.
  - `dict.get`, and Python truthiness.
  - The YAML library as a record of functions (`YamlLib`). The library is not modelled, so every result holds for whatever it does.
- **`text.dfy`** (`Text`): `str.join`, `str.split`, `str.endswith`, `str.rfind`, and the decimal text of an `int`.
- **`durations.dfy`** (`Durations`): the duration grammar, both as a declarative predicate and as the scan a regex engine performs, with a proof that the two agree.
- **`alert_windows.dfy`** (`AlertWindowsModels`): the pydantic models as datatypes and their validators.
- **`slo_library.dfy`** (`SloLibrary`):
  - `SLOSpec`.
  - The `SloProvider` class: the unit's databags, one per relation, are a field that `ProvideSlos` updates.
  - `GetSlos`: the three nested loops of `get_slos`.
- **`sloth_cli.dfy`** (`SlothCli`): `version` and `sloth_command_line`.
- **`workload.dfy`** (`Workload`): the container as a class.
  - Its fields are the files, the directories, the paths on which pebble raises, and the binary.
  - It has a ghost log of every `make_dir`, `push` and `exec`.
  - Each operation is also stated as a function on `World` values.
- **`sloth_workload.dfy`** (`SlothWorkload`): the `Sloth` class.
  - Its methods follow the source's loops.
  - Each method is proved equal to a function on `World` values: `SloSpecsPass`, `ReconcileItems`, `GenerateRules` or `AlertRules`.
- **`reconcile_properties.dfy`** (`ReconcileProperties`) and **`alert_rule_properties.dfy`** (`AlertRuleProperties`): what a reconcile pass and `get_alert_rules` guarantee, proved about those functions.

The repository's unit tests exercise a newer `Sloth` API than src/sloth.py contains:

- stale-output deletion;
- slo-period windows and their generate flags;
- a check of the number of generated rules;
- `is_config_valid`.

The model follows src/sloth.py as written.

## Model

| member | source | states |
|---|---|---|
| Durations.ValidateDuration | src/alert_windows_models.py:40-58 | A duration is accepted exactly when it matches `^\d+(\.\d+)?[smhdwy]$` (a final newline allowed, as Python's `$` allows). The empty string is rejected with its own error. An accepted value is returned unchanged. |
| Durations.ScanDurationCorrect | src/alert_windows_models.py:52-53 | The left-to-right scan accepts exactly the strings of the declarative grammar: digits, an optional `.digits` fraction, one unit letter, then the end or a single newline. |
| Durations.DurationExamplesAccepted | src/alert_windows_models.py:109-122 | "5s", "30s", "5m", "30m", "1h", "6h", "1d", "7d", "4w", "1y", "1.5h" and "30d\n" are accepted. |
| Durations.DurationExamplesRejected | src/alert_windows_models.py:109-122 | "", "5", "m", "5x", "5 m", "5.5.5m", "abc", "invalid", "1.h", ".5h" and "5m\n\n" are rejected. |
| AlertWindowsModels.ValidateAlertWindows | src/alert_windows_models.py:125-152 | Every record it returns is well formed and is described field by field by the document. |
| AlertWindowsModels.ValidateAlertWindowsCharacterised | src/alert_windows_models.py:125-154 | A document is accepted, with record `aw`, exactly when `aw` is well formed and the document describes it. Well formed means all of: `kind` is "AlertWindows", `apiVersion` is "sloth.slok.dev/v1", `sloPeriod` and all eight window durations match the grammar, and all four error budgets are in (0, 100]. |
| AlertWindowsModels.ValidateWindow | src/alert_windows_models.py:15-58 | `Window`: `errorBudgetPercent`, `shortWindow` and `longWindow` are all required and each is checked. What it accepts is stated by `ValidateWindowCharacterised`. |
| AlertWindowsModels.ValidateQuickSlow | src/alert_windows_models.py:61-95 | `PageWindow` and `TicketWindow`: `quick` and `slow` are both required windows. What it accepts is stated by `ValidateQuickSlowCharacterised`. |
| AlertWindowsModels.ValidateSpec | src/alert_windows_models.py:98-122 | `AlertWindowsSpec`: `sloPeriod` goes through the duration check, and `page` and `ticket` are required. What it accepts is stated by `ValidateSpecCharacterised`. |
| AlertWindowsModels.ValidateWindowCharacterised | src/alert_windows_models.py:15-58 | A window is accepted exactly when its three fields are present with those values, the percent is in (0, 100], and both durations match the grammar. |
| AlertWindowsModels.ValidateQuickSlowCharacterised | src/alert_windows_models.py:61-95 | A page or ticket window is accepted exactly when both `quick` and `slow` are present and accepted. |
| AlertWindowsModels.ValidateSpecCharacterised | src/alert_windows_models.py:98-122 | `spec` is accepted exactly when `sloPeriod` matches the grammar and `page` and `ticket` are both present and accepted. |
| AlertWindowsModels.ValidateDurationFieldCharacterised | src/alert_windows_models.py:40-58 | A duration field yields `s` exactly when it is the string `s` and `s` matches the grammar. |
| AlertWindowsModels.RoundTrip | src/alert_windows_models.py:125-154 | Writing a record as its aliased document and validating that document gives the record back exactly when it is well formed, and a rejection otherwise. |
| AlertWindowsModels.MissingTicketRejected | src/alert_windows_models.py:98-107 | A document whose `spec` has no `ticket` is rejected. |
| AlertWindowsModels.PercentExamples | src/alert_windows_models.py:22-28 | 100 and 10 pass as error budget percents; 0, -5 and 150 fail. |
| YamlValues.LookupFinds | src/sloth.py:131 | `d.get(key)` (also the field access of `SLOSpec(**d)` and `"groups" in rules`) finds a value exactly when `key in d`, and the value is that of the first entry with the key. |
| SloLibrary.ValidateSloSpec | lib/charms/sloth_k8s/v0/slo.py:153-175 | `SLOSpec(**d)`: the validated model, or `None` for a ValidationError. What it accepts is stated by `ValidateSloSpecCharacterised`, and its inverse by `SpecRoundTrip`. |
| SloLibrary.ValidateSloSpecCharacterised | lib/charms/sloth_k8s/v0/slo.py:153-175 | A mapping passes `SLOSpec` exactly when all of these hold: `version` is a string holding a "/"; `service` is a string, possibly empty; `labels` is a mapping of strings, or is missing, which means no labels; `slos` is a non-empty list of mappings. |
| SloLibrary.SpecRoundTrip | lib/charms/sloth_k8s/v0/slo.py:153-175 | Writing a specification as a mapping and validating it gives it back exactly when it is well formed. |
| SloLibrary.SloSpecExamples | lib/charms/sloth_k8s/v0/slo.py:161-175 | "invalid" and "" are refused as versions and "a/b/c" is accepted. An empty `slos` is refused, and so is a mapping with only a version. `labels` defaults to none, and an empty service passes. |
| SloLibrary.Published | lib/charms/sloth_k8s/v0/slo.py:261-266 | After the loop over relations, every listed relation's bag holds the value under `slo_spec` and keeps its other keys. A bag created by the loop holds only that key. Every other relation's bag is untouched. |
| SloLibrary.DumpAll | lib/charms/sloth_k8s/v0/slo.py:261 | One dump per specification, in input order. |
| SloLibrary.Serialize | lib/charms/sloth_k8s/v0/slo.py:260-261 | The `"---\n"`-joined dumps that `provide_slos` writes. Reading them back is `ProvidedThenCollected`. |
| SloLibrary.SloProvider.ProvideSlos | lib/charms/sloth_k8s/v0/slo.py:229-271 | It raises exactly when the list is non-empty and some specification is invalid, and then it writes nothing. An empty list or no relation writes nothing. Otherwise every relation's bag gets the `"---\n"`-joined dumps, in input order. |
| SloLibrary.SloProvider.ProvideSlo | lib/charms/sloth_k8s/v0/slo.py:217-227 | `provide_slo(s)` behaves as `provide_slos([s])`. It raises exactly when `s` is invalid. |
| SloLibrary.FirstEscape | lib/charms/sloth_k8s/v0/slo.py:335-356 | The first document of a unit that is non-empty and not a mapping (where `SLOSpec(**doc)` raises a TypeError, not a ValidationError) is found. No earlier document is one. |
| SloLibrary.UnitSlos | lib/charms/sloth_k8s/v0/slo.py:326-356 | One unit: nothing for a missing or empty `slo_spec` or a YAML error, otherwise the kept documents before the first escaping one. Its properties are `AcceptedMembers`, `ParseErrorDropsUnit` and `EscapeDropsRest`. |
| SloLibrary.Collect | lib/charms/sloth_k8s/v0/slo.py:314-359 | What `get_slos` returns: relation by relation, unit by unit. `GetSlos` is proved to return it; `CollectedAreValid` and `CollectAppend` state its properties. |
| SloLibrary.GetSlos | lib/charms/sloth_k8s/v0/slo.py:314-359 | The relation loop returns exactly `Collect`: the kept documents of every unit of every relation, in relation, unit and document order. |
| SloLibrary.AppendRelationSlos | lib/charms/sloth_k8s/v0/slo.py:324-325 | The unit loop appends the units' documents in unit order. |
| SloLibrary.AppendUnitSlos | lib/charms/sloth_k8s/v0/slo.py:326-356 | The document loop appends the unit's kept documents. |
| SloLibrary.CollectedAreValid | lib/charms/sloth_k8s/v0/slo.py:335-341 | Everything collected is a non-empty raw mapping that passes `SLOSpec`; no defaults are inserted. |
| SloLibrary.AcceptedMembers | lib/charms/sloth_k8s/v0/slo.py:335-349 | A document is kept exactly when it is a non-empty mapping that passes validation. An invalid document is skipped on its own. |
| SloLibrary.CollectAppend | lib/charms/sloth_k8s/v0/slo.py:321-325 | The specifications of later relations follow those of earlier ones. |
| SloLibrary.ParseErrorDropsUnit | lib/charms/sloth_k8s/v0/slo.py:329-332 | A YAML error drops every document of the unit. |
| SloLibrary.EscapeDropsRest | lib/charms/sloth_k8s/v0/slo.py:335-356 | A non-mapping document drops the rest of its unit. The documents before it that were kept stay. |
| SloLibrary.ValidIsKept | lib/charms/sloth_k8s/v0/slo.py:334-341 | A valid specification is non-empty, so it is kept and never escapes. |
| SloLibrary.AcceptedAllValid | lib/charms/sloth_k8s/v0/slo.py:335-341 | A list of valid documents is kept whole, item for item. |
| SloLibrary.ProvidedThenCollected | lib/charms/sloth_k8s/v0/slo.py:326-341 | Suppose the YAML library reads a `---`-joined dump back as the dumped documents. Then a bag written by `provide_slos` for valid specifications is read back by `get_slos` as exactly those specifications, in order. |
| SlothCli.SearchFromCorrect | src/sloth.py:18 | The search returns the leftmost substring shaped `[0-9]+[.][0-9]+[.][0-9]+[-0-9a-f]*`, extended as far as the suffix goes, or "" when no such substring exists. |
| SlothCli.VersionCorrect | src/sloth.py:229-249 | `version` is "" on an exec error or a missing stdout. Otherwise it is the first greedy match in stdout, or "" when there is no match. |
| SlothCli.VersionInLine | src/sloth.py:229-249 | "v0.11.0 " gives "0.11.0". |
| SlothCli.VersionWithSuffix | src/sloth.py:229-249 | "1.2.3-4f\n" gives "1.2.3-4f". |
| SlothCli.NoVersion | src/sloth.py:229-249 | "42", no stdout and an exec error all give "". |
| SlothCli.CommandLineWords | src/sloth.py:252-272 | The command line splits back on spaces into the binary, `serve`, `--listen=<address>` and `--default-slo-period=<period>`, when none of the three arguments holds a space. |
| SlothCli.Version | src/sloth.py:229-249 | The `version` property on the outcome of `sloth version`. What it returns is stated by `VersionCorrect`. |
| SlothCli.SlothCommandLine | src/sloth.py:252-272 | The binary, `serve`, `--listen=<address>` and `--default-slo-period=<period>`, joined with single spaces. Its defaults are stated by `DefaultCommandLine`, and splitting it back by `CommandLineWords`. |
| SlothCli.DefaultCommandLine | src/sloth.py:252-257 | Without arguments, the command line uses the address ":8080", the period "30d" and the binary "/usr/local/bin/sloth". |
| Workload.Container.CanConnect | src/sloth.py:48 | Reports the container's reachability. |
| Workload.Container.Exists | src/sloth.py:58 | True exactly for a path that is a file or a directory. |
| Workload.Container.Pull | src/sloth.py:67 | A file's content, or a raise on a faulty path or a path that is not a file. |
| Workload.Container.Push | src/sloth.py:70 | The file holds the content and the directories above it exist. It raises, changing nothing, on a faulty path, on a directory, or below a file. |
| Workload.Container.MakeDir | src/sloth.py:59 | The directory and its parents exist. It raises, changing nothing, on a faulty path, on a file, or below a file. |
| Workload.Container.Exec | src/sloth.py:157-161 | The binary's outcome on its arguments and the container's files. The run is logged. |
| Workload.Container.ListFiles | src/sloth.py:183 | It raises exactly on a faulty directory. Otherwise it lists each name directly inside the directory once, in some order. |
| SlothWorkload.GenerateRules | src/sloth.py:150-169 | It runs exactly `[sloth, generate, -i, path]`. A failed run changes no file. On success, exactly stdout is pushed to `rules/<stem>.yaml`, unless that push raises; the raise does not escape. No other file changes. |
| SlothWorkload.ServiceName | src/sloth.py:131-132 | The service name in a specification's path: a string `service` as it is, another value as Python shows it, and `service-<idx>` when the key is missing. `FallbackPathsDistinct` and `SpecPathInjective` state that the paths differ. |
| SlothWorkload.Stem | src/sloth.py:152 | `Path(p).stem` of a file name is a prefix of the name. When it is shorter, the name goes on with its last ".", which is neither its first nor its last character. When it is the whole name, no "." qualifies. |
| SlothWorkload.RulesPath | src/sloth.py:152-153 | A rules path lies directly under the rules directory and ends in ".yaml". `RulesPathOfService` gives it for a service. |
| SlothWorkload.ReconcileSpec | src/sloth.py:136-146 | One specification file: pull it (or "" when absent), then push the text and generate its rules when they differ. Its properties are `PushedIffChanged`, `RaisingItemChangesNothing`, `ReconcileSettles` and `SettledIsNoOp`. |
| SlothWorkload.ReconcileItems | src/sloth.py:129-148 | The loop over related specifications, each in its own `try`. It gives one failure flag per specification; its properties are the `Items…` lemmas and `FailedItemsAreSkipped`. |
| SlothWorkload.EnsureDirs | src/sloth.py:56-59 | The directory loop: each directory is made unless it exists, and a raise ends the loop. Its properties are `EnsureDirsMakesThem`, `EnsureDirsNoOp` and `MadeDirOnlyIfAbsent`. |
| SlothWorkload.SloSpecsPass | src/sloth.py:54-77 | `_reconcile_slo_specs`: the directories, the built-in specification, then the related ones. Its properties are `PassSettles`, `BuiltinChangedActs` and `RelatedOverwritesBuiltin`. |
| SlothWorkload.Reconciled | src/sloth.py:46-52 | `reconcile`: nothing unless the container can connect. Its properties are `DirsExistAfterPass` and `SecondPassIsNoOp`. |
| SlothWorkload.Extension | src/sloth.py:195-196 | What `extend(rules["groups"])` adds for a loaded file. `ExtensionNeedsGroups` and `GroupListExtends` state it. |
| SlothWorkload.GroupsOf | src/sloth.py:185-199 | The groups of the listed files, in listing order. `GroupsAppend`, `IgnoredFileDropsOut`, `FileGroupsIncluded` and `GroupsOrderFree` state its properties. |
| SlothWorkload.AlertRules | src/sloth.py:171-204 | `get_alert_rules` for one listing of the rules directory. `GetAlertRules` is proved to return it, and `AlertRulesOrderFree` states that the listing order does not matter. |
| SlothWorkload.Sloth.constructor | src/sloth.py:36-44 | The SLO period defaults to "30d". A missing list of related specifications is an empty one. |
| SlothWorkload.Sloth.Reconcile | src/sloth.py:46-52 | The pass is `Reconciled`: nothing happens unless the container can connect. |
| SlothWorkload.Sloth.ReconcileSloSpecs | src/sloth.py:54-77 | The pass is `SloSpecsPass`: first the two directories, then the built-in specification, then the related ones. A raise in the first two ends the pass. |
| SlothWorkload.Sloth.ReconcileSpecFile | src/sloth.py:64-75 | One specification file is handled as `ReconcileSpec`. |
| SlothWorkload.Sloth.ReconcileAdditionalSlos | src/sloth.py:123-148 | The related specifications are handled in list order, as `ReconcileItems` over their paths and texts. Each is in its own `try`, and its failure is recorded. |
| SlothWorkload.Sloth.GenerateRulesFromSlo | src/sloth.py:150-169 | The container ends as `GenerateRules` says. |
| SlothWorkload.Sloth.GetAlertRules | src/sloth.py:171-204 | `{}` when disconnected or when the rules directory is absent. Otherwise `{"groups": G}`, where G holds the groups of every listed `.yaml` file, in listing order; a failed listing gives an empty G. |
| ReconcileProperties.BuiltinSpecIsValid | src/sloth.py:79-121 | The built-in Prometheus SLO passes the library's `SLOSpec`, with service "prometheus" and one SLO. |
| ReconcileProperties.SpecPathInjective | src/sloth.py:131-132 | Different services have different specification files. |
| ReconcileProperties.FallbackPathsDistinct | src/sloth.py:131-132 | Specifications without `service` at different indexes get different files (`service-<idx>`). |
| ReconcileProperties.RulesPathOfService | src/sloth.py:152-153 | The rules of service `s` (no "/" in it) go to `/etc/sloth/rules/s.yaml`. An empty service gives `.yaml.yaml`. |
| ReconcileProperties.RulesPathOutsideSpecsDir | src/sloth.py:24-25 | A rules file is never a specification file. |
| ReconcileProperties.PushedIffChanged | src/sloth.py:136-146 | When nothing raises and the current content differs from the text (absent counts as ""), the next two actions are the push of the text to the file and the run of `sloth generate` on it. When they are equal, nothing changes at all. |
| ReconcileProperties.ChangedPushedThenRan | src/sloth.py:140-145 | A changed specification that did not raise is pushed with its text, then `sloth generate -i <path>` runs on it, after everything logged before. |
| ReconcileProperties.ReconcileSpecExtends | src/sloth.py:136-146 | Handling one specification only appends to what was done. |
| ReconcileProperties.RaisingItemChangesNothing | src/sloth.py:135-148 | A specification whose pull or push raises leaves the container as it was. |
| ReconcileProperties.ReconcileSettles | src/sloth.py:136-146 | After a specification that did not raise, its file holds its (non-empty) text and can be read. |
| ReconcileProperties.SettledIsNoOp | src/sloth.py:136-146 | A file that already holds its text is left alone: no push, no exec. |
| ReconcileProperties.SettledPreserved | src/sloth.py:133-166 | Handling another specification keeps a settled file settled, unless it writes a different text to the same path. |
| ReconcileProperties.GenerateKeepsSettled | src/sloth.py:150-169 | Generating rules never changes a specification file. |
| ReconcileProperties.ItemsPreserveSettled | src/sloth.py:129-148 | The same holds through the whole loop. |
| ReconcileProperties.ItemsSettle | src/sloth.py:129-148 | After a loop in which nothing failed, and no two specifications write different texts to one file, every file holds its text. |
| ReconcileProperties.SettledItemsNoOp | src/sloth.py:129-148 | A loop over settled specifications changes nothing and fails nowhere. |
| ReconcileProperties.FailedItemsAreSkipped | src/sloth.py:129-148 | A failing specification is skipped and the loop goes on. The container ends as if only the specifications that did not fail had been handled. |
| ReconcileProperties.ItemsLogGrows | src/sloth.py:129-148 | The loop only appends to what was done: the log before it is a prefix of the log after it. |
| ReconcileProperties.EnsureDirsMakesThem | src/sloth.py:56-59 | Without a raise, every directory exists afterwards. |
| ReconcileProperties.EnsureDirsNoOp | src/sloth.py:56-59 | With both directories present, `make_dir` is not called. |
| ReconcileProperties.MadeDirOnlyIfAbsent | src/sloth.py:56-59 | Every `make_dir` of the directory step is for one of its directories that did not exist before. |
| ReconcileProperties.DirsExistAfterPass | src/sloth.py:46-59 | After a connected pass that raised nothing, both directories exist. |
| ReconcileProperties.PassSettles | src/sloth.py:54-77 | After a pass that raised nothing, with no failure and no conflicting texts, the built-in and every related file hold their texts. |
| ReconcileProperties.SecondPassIsNoOp | src/sloth.py:46-77 | Under the same conditions, a second pass gives the same outcome and does nothing: no push, no `make_dir`, no exec. So a failed generation is not retried until the specification changes. |
| ReconcileProperties.SettledPassIsNoOp | src/sloth.py:54-77 | A pass over a container where both directories exist and every file of the pass holds its text changes nothing, raises nothing and fails nowhere. |
| ReconcileProperties.ChangedContentActs | src/sloth.py:136-146 | A file whose content differs is pushed with the text and then `sloth generate` runs on it, or the attempt raises. |
| ReconcileProperties.BuiltinChangedActs | src/sloth.py:64-75 | A pass over a container whose built-in file holds another text first pushes the built-in text to it and runs `sloth generate` on it, or raises. |
| ReconcileProperties.RelatedOverwritesBuiltin | src/sloth.py:133-146 | A related specification for the service "prometheus-availability" owns the built-in file after a pass. |
| ReconcileProperties.CollidingSpecsNeverSettle | src/sloth.py:54-77 | With such a specification, whatever the container, the pass after any pass in which nothing raised or failed pushes the built-in text again and runs the generator on it, or raises. The condition on conflicting texts in `SecondPassIsNoOp` cannot be dropped. |
| AlertRuleProperties.GroupsAppend | src/sloth.py:185-199 | The groups of two listings in turn are the groups of the first followed by those of the second. |
| AlertRuleProperties.IgnoredFileDropsOut | src/sloth.py:186-199 | A name that does not end in ".yaml", whose pull raises, or whose content fails to load, contributes nothing wherever it is listed. |
| AlertRuleProperties.ExtensionNeedsGroups | src/sloth.py:195-196 | A loaded file adds groups only when it is a mapping with a "groups" key. |
| AlertRuleProperties.GroupListExtends | src/sloth.py:195-196 | A list under "groups" is added item by item, in order. |
| AlertRuleProperties.FileGroupsIncluded | src/sloth.py:185-199 | Every listed file's groups are among the gathered ones. |
| AlertRuleProperties.GroupsOrderFree | src/sloth.py:185-199 | The same names in another order gather the same groups, each as many times. |
| AlertRuleProperties.ListingsAgree | src/sloth.py:183 | Two listings of one directory hold the same names. |
| AlertRuleProperties.AlertRulesOrderFree | src/sloth.py:171-204 | The rules returned do not depend on the order in which the directory is listed, except for the order of the groups. |

## Left out

- The pebble layer (`_pebble_layer`, `_reconcile_sloth_service`) is not part of this model: nothing calls it.
- src/charm.py is not part of this model. It is framework wiring: events, TLS, ingress, tracing, and writing rule files to the charm's disk.
- The `SLORequirer` event re-emission is framework plumbing and is not modelled.
- PyYAML is not modelled. `safe_dump`, `safe_load` and `safe_load_all` are function parameters, so nothing depends on their output format; `safe_dump` sorts keys, but the model never needs that.
- YAML integers and floats are one kind of value, `YNum`, so an integer error budget is accepted like a float, as pydantic accepts it. Pydantic's other lax coercions (numeric strings to `float`, aliases given by field name) are not modelled. Only the YAML value kinds named in each contract are accepted.
- Mapping keys are strings. A document with a non-string key makes `SLOSpec(**doc)` raise a TypeError, which drops the rest of its unit. That case is not modelled.
- Durations.ValidateDuration: `\d` is the ASCII digits here. Python's `re` also matches other Unicode decimal digits.
- Log messages and error wording are left out.
- The 30-second `exec` timeout of `sloth generate` is left out: the generator is a function of its arguments and the container's files, and a timeout is one more way of failing.
- `container.exists` never raises in the model. Faulty paths raise on `pull`, `push`, `make_dir` and `list_files`.
- Paths are not normalised: a service name holding "/" or ".." is used as text. A path is a directory exactly when it was made or implied by a push.
- SlothWorkload.ServiceName: Python's `str()` on a non-string `service` value is a function parameter (`display`), not modelled.
- SlothWorkload.Stem uses pathlib's long-standing suffix rule: a suffix starts at the last "." when that dot is neither the first nor the last character of the name. Recent Python releases treat a name ending in "." differently; that case is not modelled.
- Workload.Container.ListFiles: the listing order is left open, as pebble gives no order. The properties hold for every order.
- SlothWorkload.Sloth.GetAlertRules: does not state that names not ending in ".yaml" are never pulled. A pull changes nothing the model records. The code path that skips them is modelled.
- SlothCli.Version: the `exec` of `sloth version` is a parameter (`ExecOut`). Its stdout is the text searched.
- SloLibrary.GetSlos: `get_slos` is one function with three nested loops. The model gives each loop its own method, and the three are proved together against `Collect`.
- SlothWorkload.Sloth.ReconcileSpecFile: the built-in and the related specifications share the same pull/compare/push/generate code. In the source these steps are written out twice, identically.
- ReconcileProperties.SecondPassIsNoOp: requires the dumped texts to be non-empty. An empty text would match an absent file and never be written; PyYAML never dumps a mapping as "".
