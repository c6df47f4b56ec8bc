# Kafka topic commands: configure and delete

This project models the two Heroku CLI plugin commands `kafka:configure` and
`kafka:delete`, which change a topic on a managed Kafka cluster. Each command
is a function from its inputs to the sequence of observable events of one
invocation. The events are: writes to standard output, reports through
`cli.error`, the interactive prompt, the calls into the cluster client, and
`process.exit`. The inputs are:

- the flags object, as a map from flag name to a JavaScript value. An
  `undefined` flag is a missing key; `null`, booleans, integers, strings and
  opaque objects are values.
- the `TOPIC` argument, and the `CLUSTER` argument as an option.
- the duration parser, as a function parameter `parse` that returns `Null`
  when it fails.
- the line typed at the prompt (delete only).
- the value the remote call resolves to. The commands branch on its
  JavaScript truthiness, exactly as `if (err)` does.

Modules:

- `Trace` (trace.dfy): values, truthiness, messages, events. It also has two
  trace measures and their append lemmas: `Occurrences` counts matching
  events, and `ExitCode` gives the status of the first `process.exit`.
- `ConfigureTopic` (configure_topic.dfy): the flag schema `Flags`. The
  declarative filter `Whitelist`. `ExtractFlags`, the loop over the schema
  that builds the output map, proved equal to that filter. The command
  `ConfigureTopic` and its properties.
- `DeleteTopic` (delete_topic.dfy): `DoDeletion`, the confirmation gate
  `DeleteTopic`, and their properties.

Behaviour of the code worth noting:

- The retention-time guard in `extractFlags` tests the raw flag value, not the
  parser's result. So only an explicit `null` value is reported as unparsable
  and exits with status 1. A string the parser rejects is passed on as the
  parser's result, with no error (`UnparsableStringPassesThrough`).
- The guard runs after the header line is written. So an unparsable retention
  time produces the header, then the error, then exit 1, with no remote call.
- `compaction` and `no-compaction` are copied whenever they are not
  `undefined`, so a `null` value for them is copied as `null`.
- The configure command's remote-failure branch writes the error and returns
  without calling `process.exit` (`ConfigureExitCode`).

## Model

| member | source | states |
|---|---|---|
| ConfigureTopic.Extract | commands/configure_topic.js:17-37 | extractFlags as a value: it exits exactly when `retention-time` is `null` (the guard at line 27, `RetentionUnparsable`), reporting that `null`, and otherwise yields only schema keys; the exact map is given by `Whitelist`, the properties by `ExtractAbortsOnlyOnNull` and `UnparsableStringPassesThrough` |
| ConfigureTopic.Whitelist | commands/configure_topic.js:3-37 | the output's keys are exactly the input's defined keys among `retention-time`, `compaction`, `no-compaction`; other keys are never copied; non-retention values are copied unchanged; `retention-time` maps to the parser's result |
| ConfigureTopic.ExtractFlags | commands/configure_topic.js:17-37 | the loop over the schema returns the declarative filter `Whitelist`, and stops with the unparsable-retention outcome exactly when the `retention-time` value is `null` |
| ConfigureTopic.WhitelistKeeps | commands/configure_topic.js:22-34 | a flag is in the output iff it is defined and named in the schema; `compaction` and `no-compaction` keep their input value |
| ConfigureTopic.ExtractAbortsOnlyOnNull | commands/configure_topic.js:25-31 | the extraction aborts iff `retention-time` is `null`; any other defined value yields `parse(value)` in the output |
| ConfigureTopic.UnparsableStringPassesThrough | commands/configure_topic.js:26-31 | a string the parser rejects is not reported: the output holds the parser's `null` |
| ConfigureTopic.ConfigureTopic | commands/configure_topic.js:48-70 | configureTopic as an event trace: never empty, nothing after an exit; it opens with the both-compactions error iff both flags are truthy, and ends in an exit iff that check or the retention guard fails; the rest of its contract is in `ConfigureRejectsBothCompactions`, `ConfigureHeader`, `ConfigureRejectsNullRetention`, `ConfigureCallsOnce`, `ConfigureReports` and `ConfigureExitCode` |
| ConfigureTopic.ConfigureRejectsBothCompactions | commands/configure_topic.js:49-51 | both compaction flags truthy: the trace is the error then exit 1, with no header, no extraction and no remote call |
| ConfigureTopic.ConfigureHeader | commands/configure_topic.js:52-56 | otherwise the first event is the header, naming the cluster iff `CLUSTER` is truthy |
| ConfigureTopic.ConfigureRejectsNullRetention | commands/configure_topic.js:27-30 | a `null` retention time after the compaction check passed: the header, then the cannot-parse error, then exit 1, and no remote call |
| ConfigureTopic.ConfigureCallsOnce | commands/configure_topic.js:49-58 | the remote configure call occurs once iff neither the compaction check nor the retention guard fails, and never otherwise; every call carries `(CLUSTER, TOPIC, Whitelist(flags))` |
| ConfigureTopic.ConfigureExitCode | commands/configure_topic.js:48-70 | exit status 1 iff both compaction flags are truthy or the retention time is `null`; no `process.exit` otherwise, on a remote failure too; nothing follows an exit |
| ConfigureTopic.ConfigureReports | commands/configure_topic.js:57-69 | after the header and the call: on a truthy remote error a newline and the error, otherwise " done." and the monitor hint |
| ConfigureTopic.ScenarioRetentionDay | commands/configure_topic.js:48-70 | `configure page-visits --retention-time "1 day"` with a null remote result: header, one call with the parsed retention, " done.", hint |
| DeleteTopic.DoDeletion | commands/delete_topic.js:20-35 | doDeletion as an event trace: it starts with the remote delete for `(CLUSTER, TOPIC)` and ends in its only exit, status 1 on a truthy error and 0 otherwise; the rest of its contract is in `DoDeletionOutcome` and `DoDeletionReports` |
| DeleteTopic.DeleteTopic | commands/delete_topic.js:37-56 | deleteTopic as an event trace: it always ends in an exit with nothing after it, and prompts iff `--confirm` does not strictly equal `TOPIC`; the rest of its contract is in `ConfirmFlagSkipsPrompt`, `WarnsThenPrompts`, `MismatchAborts`, `DeleteCalledIffConfirmed` and `DeleteExitCode` |
| DeleteTopic.DoDeletionOutcome | commands/delete_topic.js:20-35 | the remote delete is issued once, with `(CLUSTER, TOPIC)`, before the "Deleting topic" line; the trace always ends in an exit, status 1 on a truthy error and 0 otherwise |
| DeleteTopic.DoDeletionReports | commands/delete_topic.js:25-34 | the error is reported before exit 1; the marked-for-deletion advisory precedes exit 0 |
| DeleteTopic.ConfirmFlagSkipsPrompt | commands/delete_topic.js:38-55 | `--confirm` strictly equal to `TOPIC`: no warning, no prompt, straight to the deletion |
| DeleteTopic.WarnsThenPrompts | commands/delete_topic.js:38-46 | otherwise the warning naming `CLUSTER` and `TOPIC` comes first, then the prompt |
| DeleteTopic.MismatchAborts | commands/delete_topic.js:47-52 | a typed answer different from `TOPIC` gives the abort message and exit 1, with no remote delete |
| DeleteTopic.DeleteCalledIffConfirmed | commands/delete_topic.js:20-56 | the remote delete is called exactly once iff `--confirm` or the typed answer equals `TOPIC`, and never otherwise; each call is for `(CLUSTER, TOPIC)` and is directly followed by the "Deleting topic" line |
| DeleteTopic.DeleteExitCode | commands/delete_topic.js:25-56 | every invocation ends in `process.exit` with nothing after it: 0 iff the deletion was confirmed and the remote result is not a truthy error, 1 otherwise |
| DeleteTopic.ScenarioConfirmedFailure | commands/delete_topic.js:37-56 | `delete page-visits --confirm page-visits` with the remote error "boom": no prompt, the error is reported, exit 1 |

## Left out

- `printWaitingDots` in both commands: timed sleeps that write three dots. They are cosmetic and produce no event here.
- The `co` generator machinery and the overlap of the remote call with the dots animation. The remote result is an input value, and the call event marks the moment the call is issued.
- The cluster client in `./clusters.js` is not part of this model. Its calls are the `CallConfigure` and `CallDelete` events.
- The duration parser in `./shared` is not part of this model. It is the parameter `parse`, and `parse(null)` is assumed to return a value rather than throw.
- `heroku-cli-util`, `co-prompt`, `underscore`, and the `module.exports` metadata (help text, argument and flag declarations, `needsApp`, `needsAuth`). These are library wrappers and CLI registration.
- The exact text and newlines of the messages. Messages are tagged values carrying the topic, the cluster or the error they mention.
- The exit status of a command that returns without `process.exit`. The host framework decides it, so the model reports no exit code.
- JavaScript NaN and fractional numbers: numbers are integers, and truthiness is modelled for those.
