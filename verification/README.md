# Declaragent: verified models of its protocols, parsers and transformations

This project models the parts of declaragent that are easy to get wrong and proves what they keep. `dafny verify
dfyconfig.toml` checks everything.

How the model relates to the code:

- Code that computes a value by recursion is a function. Code that works by loops and updates is a method or a class,
  proved equal to a specification function; the lemmas are about those functions.
- Asynchronous code is a step system: the code between two `await`s is one step, and the environment (the runtime, the
  network, the store, the caller) chooses the order. A run is any sequence of enabled steps. The class beside it has
  the code's own fields, and each of its methods is proved to take exactly the model's step.
- Foreign code is a parameter that may answer anything, or a function with the one property that is used of it.

## Capability types (`Json`, `CapabilitySchema`, `TypeScript`, `SchemaTypes`, `SchemaSoundness`, `SchemaExactness`, `SchemaOrder`, `TypeText`, `TypeTextReads`, `TypeTextMeans`, `CapabilitiesGen`)

JSON Schemas are compiled to TypeScript type expressions, given a meaning (which JSON values inhabit a type), and
compared with what a schema accepts, both as the runtime validator decides it and as JSON Schema 2020-12 does. Every
accepted value inhabits the type. On the fragment without bounds the two coincide, `oneOf` included exactly if its
alternatives exclude each other (`OneOfExactIff`). Two limits are stated exactly: the validator tests `required` with
the `in` operator, so `{}` meets a required and listed `toString`; and TypeScript itself lets an index signature
constrain listed properties as well.

The emitted text is read back by an independent reader of type expressions (`TypeText`), in which `&` binds stronger
than `|`. The text determines the type up to comments and grouping (`TextReads`), and what the reader gets admits
every accepted value (`EmittedTextIsSound`). Grouping is where the source loses something: `allOf` over a union is
printed without parentheses, so `A | B` and `C` come out as `A | B & C`. The text then means the same exactly if all
of `A` lies within `C` (`ParenthesesIff`); a string that `allOf` of "string or number" and "number" excludes is
admitted by its text (`MissingParentheses`).

## The YAML subset parser (`Text`, `YamlReader`, `YamlParser`, `YamlComments`, `YamlRoundTrip`, `YamlScalars`, `YamlDocuments`)

The parser of the website's manifest checker inserts synthetic lines into its own input. It terminates on every input.
For documents of maps, lists, words, text in double or single quotes, literal and folded blocks, decimal numbers,
booleans, null, `~` and values left out, written in a canonical layout, it is stated exactly which ones read back,
against a meaning that does not mention the reader: those in which no quoted text has a backslash right before an `n`
(or, in single quotes, before a double quote, both being taken for escapes there), no quoted text that is an item of a
list has a colon, and no folded block loses white space at its ends. A quoted item with a colon is taken for a
mapping; if it has no quote in it, its synthetic line is never consumed and all lines behind it are dropped
(`ColonItemStops`). A comment behind a line changes nothing exactly if the line leaves no quote open.

The parser's comment says that input outside the subset "fails loudly". It does not: a line at the left margin that
does not continue a block is dropped with everything below it (`TrailingLinesDropped`).

## The audit-sink registry (`AuditSink`, `AuditSinkRuns`, `AuditSinkExact`, `AuditSinkRegistry`)

A cache of reference-counted handles under every interleaving of acquires, opens that succeed or fail, releases and
closes. Two rules for releases are exact, in the sense that every run that keeps the rule is fine and every step that
breaks it can be continued into a run that is not:

- At most one live handle per path: the sole owner of an entry does not release it before its sink is stored.
  Otherwise the next acquire opens a second handle, or, if the open had failed, the unconditional `cache.delete(path)`
  evicts somebody else's entry.
- All promises together: moreover nobody releases an entry that its own acquire is still in flight on, unless the open
  has failed. Otherwise that acquire ends with a lease on a handle that the others have closed.

The simple rule that no owner releases a path during its own acquire implies both.

## Fleet deploys (`FleetDeploy`, `FleetDeployExecutor`, `FleetDeployProperties`, `FleetDeployAtomic`, `FleetDeployExact`, `FleetDeployRecords`, `FleetDeployPerAgent`, `MemoryTarget`, `DeployHistory`)

The four strategies against adapters whose answers may depend on every call made before. For `rolling`, `canary` and
`all-or-nothing` it is stated which plans are all-or-nothing against all adapters whose rollbacks succeed, by what can
be seen of a plan and its adapters before the call. What breaks it is an agent that can be live when something else
fails and cannot be rolled back, or a missing adapter, whose exception leaves the agents deployed so far on the new
version with no rollback. The command line's `resolveAdapters` (`packages/cli/src/fleet-deploy-cli.ts:864-886`)
refuses such a plan before anything is deployed, so only direct callers of `executeDeploy` can meet the second. What
the result records of each agent is stated for all strategies against the agents' own answers. The history file can be
torn anywhere and still reads back.

## Connections (`Arithmetic`, `SlackSocket`, `SlackTransport`, `Telegram`, `TelegramPause`, `TelegramPoller`, `HostTail`, `Sse`, `SseFrames`, `DaemonClient`)

- Slack: reconnects are neither lost nor doubled; `close()` is final exactly when no URL fetch is in flight.
- Telegram: one poll loop, ids handed on in increasing order, and nothing confirmed that was not handed on. A resume
  that comes before an aborted loop has returned is lost. After a pause no further poll begins and nothing more is
  handed on; what was left of a batch is sent again. A poll that fails is repeated from the same offset.
- Log tailing: every host goes on alternating between a stream and a wait until `stop()`. The header comment of
  `fleet-logs-stream.ts` says that a successful connect resets the backoff and that `stop()` returns promptly during a
  backoff. In the code only a stream that ends cleanly resets it (`ConnectDoesNotReset`), and a loop that is waiting
  when `stop()` clears its timer never returns (`StopReturnsIff`).
- Event streams: chunking does not matter. It is stated exactly for which lines the data of an event is what section
  9.2.6 of the WHATWG HTML standard makes of them; a stream with `\r\n` line ends yields no event.
- Daemon client: every call is resolved with its own answer or pending, unless an id in flight is reused.

## Fleet files (`FileTree`, `FieldLine`, `FleetPromote`, `FleetPromoteMoves`, `FleetPromoted`, `FleetDemote`, `FleetPromoteInverse`, `FleetDemoteExact`, `FleetManifest`, `FleetManifestProperties`, `FleetManifestRuns`, `FleetAdd`, `FleetNames`, `ServiceName`)

`promote` turns an agent directory into a fleet of one and `demote` turns it back; it is proved exactly when they are
inverse outside `package.json`. The source calls `demote` "the strict inverse"; it is not for an agent id that YAML
reads as a number, for a root with an `agents/` directory or a `PROMOTED.md`, or for quoted names. For an arbitrary
fleet it is stated exactly when `demote` succeeds and what is then at every path (`DemoteExact`), and `agents/` is
only ever deleted when the manifest lists a single agent.

Adding an agent copies its files with their rewrites and edits `fleet.yaml` by text surgery. The edit keeps all other
lines of any manifest. How the result reads is stated for manifests whose agents are written as `[]` or as a block
list, at any indentation: the new entry is read behind the old ones exactly if the list is empty or indented by two
blanks. A list at the left margin, or indented deeper than two, comes to stand next to an item of another indentation,
which YAML rejects, so that no later command reads the manifest (`AddBreaksManifest`). With agents in flow style the
command throws after it has copied all files (`AddExact`). An id that YAML reads as a number, such as `007`, escapes
the collision check, but a second add of it is still refused because its directory is there, unless it is forced.
Service names are normalised to a fixed form.

## The WhatsApp conversation window (`WhatsApp`, `WhatsAppRuns`, `WhatsAppChannel`)

A cache over a store with expiry, and the gate that lets free-form messages through only inside the window. Agreement
needs three things of the environment, each shown to be needed: no write to a sender's window while a store read for
that sender has not returned, no message stamped in the future, and a store if the process restarts.

## Model

| member | source | states |
|---|---|---|
| SchemaSoundness.Sound | packages/cli/src/capabilities-gen-cli.ts:201-318 | every value the validator accepts inhabits the compiled type, for all schemas and depths, unless a listed property with an inherited name is required |
| SchemaSoundness.SoundForJsonSchema | packages/cli/src/capabilities-gen-cli.ts:191-199 | against JSON Schema itself over-approximation needs no assumption |
| SchemaSoundness.SoundObject | packages/cli/src/capabilities-gen-cli.ts:274-318 | objects: if required listed properties are own, every accepted member fits the emitted members and index signature |
| SchemaSoundness.SoundTypes | packages/cli/src/capabilities-gen-cli.ts:239-272 | a type list compiles to a union that covers every value one of its names accepts |
| SchemaExactness.Complete | packages/cli/src/capabilities-gen-cli.ts:201-318 | on the plain fragment, `oneOf` over alternatives that exclude each other included, the schema accepts every value of its type |
| SchemaExactness.Exact | packages/cli/src/capabilities-gen-cli.ts:201-318 | on the plain fragment acceptance and the type coincide |
| SchemaExactness.OneOfExactIff | packages/cli/src/capabilities-gen-cli.ts:229-231 | the union emitted for `oneOf` over plain alternatives admits exactly the accepted values iff no value is accepted by two alternatives |
| SchemaExactness.IntegerIsWider | packages/cli/src/capabilities-gen-cli.ts:255-257 | `integer` accepts exactly the whole numbers, and its type admits every number |
| SchemaExactness.InheritedNames | packages/core/src/rpc/capability-validator.ts:423-432 | an accepted object fits the type of an object schema iff it has every required listed property as its own |
| SchemaExactness.EmptyAccepted | packages/core/src/rpc/capability-validator.ts:423-432 | `{}` is accepted whenever all required names are inherited by every object |
| SchemaExactness.StrictIndex | packages/cli/src/capabilities-gen-cli.ts:308-315 | under TypeScript's reading of index signatures at every depth, an accepted object of a schema with listed and extra properties, above types that do not mix them, is admitted iff its listed properties fit the extra type too |
| SchemaExactness.StrictlySound | packages/cli/src/capabilities-gen-cli.ts:308-315 | under that reading over-approximation holds for all types that never mix the two |
| SchemaExactness.StrictIsLax | packages/cli/src/capabilities-gen-cli.ts:308-315 | such types mean the same under both readings |
| SchemaOrder.SameTypes | packages/cli/src/capabilities-gen-cli.ts:192-199 | schemas equal up to the order of object members, and order or repetition under `required`, compile to the same type |
| SchemaOrder.SamePrinted | packages/cli/src/capabilities-gen-cli.ts:196-199 | such schemas print identically at every depth |
| SchemaTypes.SortedKeysCorrect | packages/cli/src/capabilities-gen-cli.ts:281 | the keys are emitted strictly sorted, each listed property exactly once |
| SchemaTypes.SortedUnique | packages/cli/src/capabilities-gen-cli.ts:281 | a strictly sorted key list is determined by its elements, the reason for determinism |
| TypeTextReads.TextReads | packages/cli/src/capabilities-gen-cli.ts:201-318 | reading the emitted text gives the type, up to comments and grouping, at every depth, for types without empty lists of alternatives and comments that do not end early |
| TypeTextMeans.TextMeans | packages/cli/src/capabilities-gen-cli.ts:201-318 | the type the text says admits all values of the type printed, and exactly those if no union stands below an intersection |
| TypeTextMeans.EmittedTextIsSound | packages/cli/src/capabilities-gen-cli.ts:191-199 | the text emitted for a schema says a type that every accepted value inhabits, on the assumption of `Sound` and for types as in `TextReads` |
| TypeTextMeans.ParenthesesIff | packages/cli/src/capabilities-gen-cli.ts:235-237 | `allOf` of "a or b" and c, printed without parentheses, says what it means iff every value of a is one of c |
| TypeTextMeans.MissingParentheses | packages/cli/src/capabilities-gen-cli.ts:235-237 | a string that `allOf` of "string or number" and "number" excludes is admitted by the emitted text |
| CapabilitySchema.AcceptingSome | packages/core/src/rpc/capability-validator.ts:293-352 | a schema list with exactly one accepting member has an accepting member |
| CapabilitiesGen.RenderType | packages/cli/src/capabilities-gen-cli.ts:201-209 | the rendered text is the printed form of the compiled type |
| CapabilitiesGen.RenderNode | packages/cli/src/capabilities-gen-cli.ts:210-245 | keyword precedence: `$ref`, `enum`, `const`, then the others |
| CapabilitiesGen.RenderCombined | packages/cli/src/capabilities-gen-cli.ts:229-245 | keyword precedence: `oneOf`, `anyOf`, `allOf`, `type` |
| CapabilitiesGen.RenderTypes | packages/cli/src/capabilities-gen-cli.ts:239-248 | a type list renders as the union of its members |
| CapabilitiesGen.RenderName | packages/cli/src/capabilities-gen-cli.ts:250-271 | one type name renders as its TypeScript counterpart |
| CapabilitiesGen.RenderLits | packages/cli/src/capabilities-gen-cli.ts:213-221 | enum members that are not primitive render as `unknown` |
| CapabilitiesGen.RenderAll | packages/cli/src/capabilities-gen-cli.ts:229-237 | every alternative is rendered, in order |
| CapabilitiesGen.RenderObject | packages/cli/src/capabilities-gen-cli.ts:274-318 | the pushed lines joined are the printed object type |
| CapabilitiesGen.RenderRecord | packages/cli/src/capabilities-gen-cli.ts:285-293 | an object without listed properties is closed, a record of the extra type, or open |
| CapabilitiesGen.RenderProps | packages/cli/src/capabilities-gen-cli.ts:295-307 | one member per key in key order |
| CapabilitiesGen.PushProp | packages/cli/src/capabilities-gen-cli.ts:296-307 | documentation lines, quoting, optional mark and type of one member |
| CapabilitiesGen.RenderIndex | packages/cli/src/capabilities-gen-cli.ts:308-315 | an index signature exactly when extra properties have a schema |
| CapabilitiesGen.DescriptionPrinted | packages/cli/src/capabilities-gen-cli.ts:296-307 | every line of a property's description stands above it, in order, as a comment of its own |
| CapabilitiesGen.NotesPrinted | packages/cli/src/capabilities-gen-cli.ts:208-254 | a string's format and a reference's target stand behind the type as a comment |
| YamlReader.MapSetIs | website/app.js:445-488 | a repeated key keeps its place and takes the new value, other keys keep theirs, and a new key comes last |
| YamlReader.SpliceFalls | website/app.js:427-436 | inserting the synthetic line strictly lowers the weight of the remaining lines, so parsing terminates |
| YamlParser.Parser.ParseBlock | website/app.js:402-491 | terminates on every input and reads what the specification reads, leaving the cursor where it says |
| YamlParser.Parser.ParseItems | website/app.js:410-442 | the sequence loop with its splices |
| YamlParser.Parser.ParseFields | website/app.js:445-488 | the mapping loop, block scalars included |
| YamlParser.Parser.ReadBlockLines | website/app.js:464-478 | the lines of a block scalar |
| YamlParser.Parser.Peek | website/app.js:397-400 | the cursor moves over exactly the blank lines |
| YamlParser.Parser.Splice | website/app.js:433-434 | one line in front of the unread lines and nothing else changes |
| YamlParser.StripLine | website/app.js:329-349 | comment removal outside quotes |
| YamlParser.LocateColon | website/app.js:494-506 | the first colon outside quotes, or -1 |
| YamlParser.MeasureIndent | website/app.js:353-357 | the number of leading blanks |
| YamlParser.ReadHead | website/app.js:453-460 | key and value text of a mapping line at the block's own indentation |
| YamlParser.Parse | website/app.js:327-510 | the whole function equals its specification |
| YamlRoundTrip.BlockRoundTrip | website/app.js:402-491 | reading the layout of a block at any indentation, before anything that ends it, recovers its value and stops exactly behind it, or in front of a list item that stops every loop |
| YamlRoundTrip.EntriesRoundTrip | website/app.js:445-488 | mappings, entry by entry, onto what was read before, up to an entry that is not read to its end |
| YamlRoundTrip.ItemsRoundTrip | website/app.js:410-442 | sequences, with the inline form `- key: value` and with quoted items that are taken for it |
| YamlRoundTrip.LiteralReads | website/app.js:464-478 | a literal block reads back line by line, inner indentation and empty lines included |
| YamlRoundTrip.LiteralExact | website/app.js:329-349 | any lines written as a literal block come back without comments and white space at their ends, so unchanged iff the comment scanner keeps every one |
| YamlRoundTrip.ParseYamlRoundTrip | website/app.js:327-510 | parsing the text of any canonical layout returns exactly what is recovered of the tree, number signs inside quotes included |
| YamlRoundTrip.TrailingLinesDropped | website/app.js:323-325 | behind a canonical block, a line at the left margin that does not continue it is dropped with all lines below it, and nothing fails |
| YamlDocuments.DocumentRoundTrip | website/app.js:327-510 | parsing the canonical text of a document yields exactly what the document means iff no quoted text has a backslash before an `n` (or, in single quotes, a double quote), none that is a list item has a colon, and folded blocks have nothing to lose at their ends |
| YamlDocuments.ScalarDocument | website/app.js:402-491 | a document that is one scalar without a colon reads back on the same terms, null as an empty map |
| YamlDocuments.LoneScalarReads | website/app.js:402-491 | a line that is no item and has no colon is a scalar where a block is expected |
| YamlDocuments.FlowReads | website/app.js:359-374 | text in braces or brackets goes to the flow-style reader as it stands |
| YamlScalars.WordReads | website/app.js:359-374 | a plain word other than null, true and false reads back as itself |
| YamlScalars.QuotedReads | website/app.js:366-368 | a quoted and escaped text, of any characters, reads back as the text iff no backslash stands right before an `n` |
| YamlScalars.QuotedClean | website/app.js:336-346 | the comment scanner keeps every quoted text, number signs included, and leaves no quote open unless the text ends with a backslash |
| YamlDocuments.ColonItemStops | website/app.js:427-436 | a list item of quoted text with a colon and no quote is read as `{}`, and its synthetic line stays unread with all lines behind it |
| YamlScalars.NumberReads | website/app.js:365 | a decimal number, with or without sign and fraction, reads back with the same digits |
| YamlScalars.SingleReads | website/app.js:366-368 | text in single quotes reads back iff no backslash stands right before an `n` or a double quote |
| YamlScalars.KeywordReads | website/app.js:359-364 | `null` and `~` read as null, `true` and `false` as booleans |
| YamlScalars.FoldedReads | website/app.js:464-478 | folded lines read back as one line, a blank between any two, iff that line has no white space at its ends |
| YamlDocuments.WritingIsInjective | website/app.js:327-510 | faithful documents with the same canonical text mean the same |
| YamlDocuments.DocumentComments | website/app.js:329-349 | comments behind any lines of a document's canonical text change nothing of what is read, if no text in it leaves a quote open |
| YamlComments.CommentIgnoredIff | website/app.js:329-349 | a comment behind a line is removed without a trace iff the line leaves no quote open |
| YamlComments.CommentsIgnored | website/app.js:329-349 | comments behind any such lines of any text change nothing of what the parser returns |
| AuditSink.StepKeepsInv | packages/cli/src/audit-sink-singleton.ts:111-168 | every timely step keeps the registry's invariant |
| AuditSinkRuns.RunsAreSafe | packages/cli/src/audit-sink-singleton.ts:102-168 | over every run of timely releases: at most one live handle per path, lease holders have a live handle, each handle is closed at most once, nothing leaks at rest |
| AuditSinkExact.DisciplinedRunsAreSafe | packages/cli/src/audit-sink-singleton.ts:102-168 | the same over every run in which no owner releases during its own acquire |
| AuditSinkExact.SafeIff | packages/cli/src/audit-sink-singleton.ts:102-168 | exactly the timely steps cannot be continued, by timely steps, into a broken promise |
| AuditSinkExact.CarefulRunsHaveOneLive | packages/cli/src/audit-sink-singleton.ts:111-168 | over every run of careful releases there is at most one live handle per path |
| AuditSinkExact.OneLiveIff | packages/cli/src/audit-sink-singleton.ts:124-132 | exactly the careful steps cannot be continued, carefully, into two live handles on a path |
| AuditSinkExact.CarelessBreaks | packages/cli/src/audit-sink-singleton.ts:124-132 | a sole owner's release before the sink is stored has a continuation, without further releases, with two live handles |
| AuditSinkExact.EarlyReleaseStrands | packages/cli/src/audit-sink-singleton.ts:115-120 | any other untimely release has a continuation of timely steps in which its owner holds a lease on a closed handle |
| AuditSinkRuns.ClosesWhenUnowned | packages/cli/src/audit-sink-singleton.ts:147-163 | a live handle starts closing only in the release of its last owner, and nobody holds or awaits it then |
| AuditSinkRuns.FailedOpenReopens | packages/cli/src/audit-sink-singleton.ts:127-132 | a failed open leaves the path free, and the next acquire opens anew |
| AuditSinkRegistry.Registry.Acquire | packages/cli/src/audit-sink-singleton.ts:111-124 | exactly the acquire step, and whether the caller has its lease at once |
| AuditSinkRegistry.Registry.OpenSettled | packages/cli/src/audit-sink-singleton.ts:124-132 | exactly the step after the awaited open |
| AuditSinkRegistry.Registry.JoinSettled | packages/cli/src/audit-sink-singleton.ts:116-120 | exactly the step of a caller that joined an open |
| AuditSinkRegistry.Registry.Release | packages/cli/src/audit-sink-singleton.ts:152-168 | exactly the release step |
| FleetDeployExecutor.ExecuteRolling | packages/cli/src/fleet-deploy-cli.ts:273-325 | calls, bookkeeping and rollback cascade of the rolling strategy |
| FleetDeployExecutor.ExecuteCanary | packages/cli/src/fleet-deploy-cli.ts:326-429 | the canary strategy, empty plan included |
| FleetDeployExecutor.ExecuteAllOrNothing | packages/cli/src/fleet-deploy-cli.ts:430-476 | the all-or-nothing strategy |
| FleetDeployExecutor.ExecutePerAgent | packages/cli/src/fleet-deploy-cli.ts:477-507 | the per-agent strategy for any settle order |
| FleetDeployExecutor.DeployEntry | packages/cli/src/fleet-deploy-cli.ts:274-304 | one deploy with its probe |
| FleetDeployExecutor.RollOutFrom | packages/cli/src/fleet-deploy-cli.ts:274-305 | the loop with its early exits |
| FleetDeployExecutor.RollBackAll | packages/cli/src/fleet-deploy-cli.ts:306-325 | the cascade over the deployed agents in reverse |
| FleetDeployProperties.CanaryIsRolling | packages/cli/src/fleet-deploy-cli.ts:326-429 | for adapters blind to the soak, canary makes the calls of rolling and returns its result up to error text, for every plan |
| FleetDeployProperties.RollOutStops | packages/cli/src/fleet-deploy-cli.ts:273-305 | a roll-out contacts exactly a plan prefix; a failed deploy leaves the agent out of `deployed`, a failed probe includes it |
| FleetDeployAtomic.RollingOutcome | packages/cli/src/fleet-deploy-cli.ts:237-239 | after a failure the rollback calls are `deployed` reversed as far as adapters can roll back, and `rolledBack` has exactly the successful ones |
| FleetDeployAtomic.RollingAtomic | packages/cli/src/fleet-deploy-cli.ts:237-239 | with total rollbacks the whole plan is live at the end, or nothing new is |
| FleetDeployExact.RollingAtomicIff | packages/cli/src/fleet-deploy-cli.ts:237-239 | rolling is all-or-nothing against all adapters whose rollbacks succeed iff the first entry has no adapter, or all have one and every agent that can be live when another step fails can be rolled back |
| FleetDeployExact.CanaryAtomicIff | packages/cli/src/fleet-deploy-cli.ts:327-329 | canary is so for exactly the same plans, whether or not answers depend on the soak |
| FleetDeployExact.Breaks | packages/cli/src/fleet-deploy-cli.ts:253-261 | for every other plan, adapters of which at most one deploy or probe fails leave it half deployed |
| FleetDeployExact.MissingAdapterLeaves | packages/cli/src/fleet-deploy-cli.ts:253-261 | a missing adapter in the middle leaves exactly the agents before it on the new version, with no rollback |
| FleetDeployExact.AllOrNothingAtomicIff | packages/cli/src/fleet-deploy-cli.ts:240-240 | all-or-nothing lives up to its name against all such adapters iff no entry has an adapter, or all have one and, of two or more, all can roll back |
| FleetDeployExact.MissingAdapterInParallel | packages/cli/src/fleet-deploy-cli.ts:430-437 | a missing adapter anywhere leaves exactly the agents that have one on the new version, with no rollback |
| FleetDeployAtomic.CanaryAtomic | packages/cli/src/fleet-deploy-cli.ts:327-329 | for adapters blind to the soak canary ends with the agents live, the rollbacks and the exception of rolling |
| FleetDeployAtomic.AllOrNothingOutcome | packages/cli/src/fleet-deploy-cli.ts:430-476 | throws iff an adapter is missing, with everything else started and nothing rolled back; otherwise, with total rollbacks, the whole plan or nothing new is live and the rollbacks are in reverse |
| FleetDeployRecords.RollingRecords | packages/cli/src/fleet-deploy-cli.ts:273-325 | the records are those of exactly the contacted agents, a plan prefix; the last one, if it failed, is not ok and has the error of its own deploy or probe, the others are ok with their own artifact, and the result is ok iff none failed |
| FleetDeployRecords.CanaryRecords | packages/cli/src/fleet-deploy-cli.ts:326-429 | the same for `canary`, the first agent being probed after the soak |
| FleetDeployRecords.AllOrNothingRecords | packages/cli/src/fleet-deploy-cli.ts:430-476 | with adapters for all, every agent has the record of its own answer, `failed` is the first in plan order that did not deploy, and the result is ok iff all did |
| FleetDeployPerAgent.PerAgentIndependent | packages/cli/src/fleet-deploy-cli.ts:241-241 | in any settle order every agent is contacted once, nothing is rolled back, each record is that of the agent's own answer, `deployed` has each success once, and the deploy is ok iff all succeed |
| MemoryTarget.HealthIsLive | packages/cli/src/fleet-deploy-cli.ts:129-148 | the health map is exactly the set of agents on the new version |
| MemoryTarget.MemoryRolling | packages/cli/src/fleet-deploy-cli.ts:86-101 | with this adapter rolling fails exactly at the first injected failure, and ends with all or no agents healthy |
| MemoryTarget.Target.CallDeploy | packages/cli/src/fleet-deploy-cli.ts:129-140 | answers as the model's adapter and records the deploy |
| MemoryTarget.Target.CallHealthCheck | packages/cli/src/fleet-deploy-cli.ts:141-144 | answers from the health map |
| MemoryTarget.Target.CallRollback | packages/cli/src/fleet-deploy-cli.ts:145-148 | records the rollback and drops the health entry |
| DeployHistory.AppendReads | packages/cli/src/fleet-deploy-cli.ts:554-585 | whatever the file holds, appending and re-reading yields the old records and then the new one |
| DeployHistory.AppendAllReads | packages/cli/src/fleet-deploy-cli.ts:554-585 | the same for any run of appends |
| DeployHistory.ReadDeployHistory | packages/cli/src/fleet-deploy-cli.ts:554-574 | the records of the parseable lines in order |
| DeployHistory.AppendDeployRecord | packages/cli/src/fleet-deploy-cli.ts:576-585 | the new text, and that it reads back |
| DeployHistory.IndexLastDeploys | packages/cli/src/fleet-status-cli.ts:98-107 | the one-pass map holds per agent the last record that mentions it |
| DeployHistory.IndexAfterAppends | packages/cli/src/fleet-status-cli.ts:97-107 | after any appends the index has the last appended record of an agent, else what the file said before |
| SlackSocket.StepKeepsInv | packages/channel-slack/src/client.ts:193-321 | every event keeps the transport's invariant |
| SlackSocket.ReconnectExactlyOnce | packages/channel-slack/src/client.ts:176-181 | over every run until `close()`: exactly one of socket, timer, URL fetch; `connected()` is truthful; the n-th delay is min(1000·2^n, 30000) |
| SlackSocket.CloseIsFinal | packages/channel-slack/src/client.ts:254-271 | after `close()` no socket and no connection ever again iff no URL fetch is in flight |
| SlackSocket.CloseClosesSockets | packages/channel-slack/src/client.ts:305-320 | `close()` leaves no timer and no socket connecting or open |
| SlackSocket.SocketsAfterClose | packages/channel-slack/src/client.ts:305-320 | at most one more socket is created after `close()` |
| SlackSocket.QuietForever | packages/channel-slack/src/client.ts:305-320 | once closed with no fetch in flight the transport stays silent |
| SlackTransport.Transport.ScheduleReconnect | packages/channel-slack/src/client.ts:242-252 | at most one timer, with the next delay |
| SlackTransport.Transport.HandleOpen | packages/channel-slack/src/client.ts:260-264 | exactly the open step |
| SlackTransport.Transport.HandleClose | packages/channel-slack/src/client.ts:235-239 | exactly the close step |
| SlackTransport.Transport.HandleTimer | packages/channel-slack/src/client.ts:248-255 | exactly the timer step |
| SlackTransport.Transport.ResumeReopen | packages/channel-slack/src/client.ts:257-271 | exactly the step after the awaited URL |
| SlackTransport.Transport.Close | packages/channel-slack/src/client.ts:305-320 | exactly the `close()` step |
| Telegram.StepKeepsInv | packages/channel-telegram/src/instance.ts:175-220 | every step of loop, server and callers keeps the invariant |
| Telegram.PollingIsSafe | packages/channel-telegram/src/instance.ts:175-220 | over every run: one poll loop, handed-on ids strictly increase, every update the server discarded was handed on |
| Telegram.ResumeTakesEffect | packages/channel-telegram/src/instance.ts:175-182 | a start or resume leaves a loop that polls iff no aborted loop is still running |
| Telegram.PendingNext | packages/channel-telegram/src/instance.ts:204-208 | handing on the first pending update leaves exactly the others pending from the next offset |
| TelegramPause.PauseEndsPolling | packages/channel-telegram/src/instance.ts:128-149 | after a pause or stop, over every continuation without a resume, no further poll begins and nothing more is handed on or confirmed |
| TelegramPause.AbortedReturns | packages/channel-telegram/src/instance.ts:189-216 | an aborted loop makes at most two more steps, the end of its suspended call included, and has returned when it has made them |
| TelegramPause.CanGoOn | packages/channel-telegram/src/instance.ts:189-216 | a live loop is never stuck |
| TelegramPause.PausedBatchStays | packages/channel-telegram/src/instance.ts:204-208 | updates of a batch that were not handed on before a pause stay unconfirmed and come first in the next answer |
| TelegramPause.FailedPollRetries | packages/channel-telegram/src/instance.ts:192-203 | a failed poll is followed by one from the same offset unless the loop is aborted in between |
| TelegramPause.AnswerHandedOn | packages/channel-telegram/src/instance.ts:204-208 | all updates of an answered poll of a loop that is not aborted are handed on, in order |
| TelegramPoller.Poller.StartLongPolling | packages/channel-telegram/src/instance.ts:175-182 | exactly the start step |
| TelegramPoller.Poller.PauseOrStop | packages/channel-telegram/src/instance.ts:146-149 | exactly the abort step |
| TelegramPoller.Poller.TestAndPoll | packages/channel-telegram/src/instance.ts:189-198 | polls from the id after the last one, or returns when aborted |
| TelegramPoller.Poller.NextUpdate | packages/channel-telegram/src/instance.ts:204-208 | hands on the next update unless aborted |
| TelegramPoller.Poller.ResumePoll | packages/channel-telegram/src/instance.ts:192-212 | what happens with an answered poll |
| TelegramPoller.Poller.Return | packages/channel-telegram/src/instance.ts:214-216 | the loop is gone and may be started again |
| HostTail.RunKeepsInv | packages/cli/src/fleet-logs-stream.ts:208-262 | over every run the k-th wait since a clean end is the k-th backoff delay, and no loop returns before `stop()` |
| HostTail.WaitDoubles | packages/cli/src/fleet-logs-stream.ts:242-259 | that delay is min(initial·2^k, maximum) |
| HostTail.StopReturnsIff | packages/cli/src/fleet-logs-stream.ts:162-186 | `stop()` can return iff no host was waiting for its next attempt |
| HostTail.ConnectDoesNotReset | packages/cli/src/fleet-logs-stream.ts:116-120 | after a stream that connected the next wait is the initial one iff the stream ended cleanly or no wait came before |
| HostTail.KeepsRetrying | packages/cli/src/fleet-logs-stream.ts:208-262 | until `stop()` each end of a host's stream is followed by a wait and each wait by another stream, whatever the other hosts do |
| HostTail.Tail.EndStream | packages/cli/src/fleet-logs-stream.ts:213-257 | exactly the step after a stream ends |
| HostTail.Tail.FireTimer | packages/cli/src/fleet-logs-stream.ts:252-259 | exactly the timer step |
| HostTail.Tail.CallStop | packages/cli/src/fleet-logs-stream.ts:163-183 | every pending timer is cleared and no loop is touched otherwise |
| Sse.ChunkingIrrelevant | packages/cli/src/fleet-logs-stream.ts:304-315 | carrying the tail across chunks equals splitting the whole text |
| Sse.SplitFramesCorrect | packages/cli/src/fleet-cross-host-cli.ts:573-576 | frames and tail rejoin to the text, each cut is the leftmost, and no cut is missed |
| Sse.FramesNeedLineFeeds | packages/cli/src/fleet-cross-host-cli.ts:573-576 | frames appear iff two line feeds are adjacent; `\r\n` streams have none |
| SseFrames.DataIs | packages/cli/src/fleet-cross-host-cli.ts:595-605 | the data is the values of the data lines joined by line breaks, without the empty ones in front |
| SseFrames.DataExact | packages/cli/src/fleet-cross-host-cli.ts:595-605 | it is what section 9.2.6 of the WHATWG HTML standard makes of the same lines iff no line is a bare `data`, no value starts with more white space than one blank, and of several data lines the first is not empty |
| SseFrames.EmitIs | packages/cli/src/fleet-logs-stream.ts:320-345 | a frame with data is handed on as a log line iff its last `event:` line says `log`, as a system line iff it says `system`, and otherwise not at all |
| SseFrames.StreamOnce | packages/cli/src/fleet-logs-stream.ts:302-345 | the events of the whole text in order, however it is chunked |
| SseFrames.ReadLogSnapshot | packages/cli/src/fleet-cross-host-cli.ts:565-588 | exactly the first `maxLines` log frames of the text |
| SseFrames.CollectLogLines | packages/cli/src/fleet-cross-host-cli.ts:577-581 | the early exit cuts at the limit and nowhere else |
| DaemonClient.StepKeeps | packages/cli/src/daemon-client.ts:35-86 | every step keeps the correlation, and no call is resolved twice |
| DaemonClient.CallsAreResolved | packages/cli/src/daemon-client.ts:35-86 | over every run with distinct ids in flight, calls are resolved with their own id or pending, and all resolved after the close event |
| DaemonClient.ReuseLoses | packages/cli/src/daemon-client.ts:75-78 | a request loses a call iff it reuses an id in flight, and that call is then never resolved |
| DaemonClient.AnswerResolves | packages/cli/src/daemon-client.ts:41-49 | an answer resolves exactly the pending call with its id and frees the id |
| DaemonClient.RequestIsAnswered | packages/cli/src/daemon-client.ts:67-79 | a request on an open connection gets its own answer, whatever else is asked and answered before it comes |
| DaemonClient.ClosedAnswersAtOnce | packages/cli/src/daemon-client.ts:67-74 | on a closed connection a request is answered at once with the error |
| DaemonClient.CloseAnswersPending | packages/cli/src/daemon-client.ts:53-64 | the close event answers exactly the pending calls, each with the error under its own id |
| DaemonClient.Client.SendRequest | packages/cli/src/daemon-client.ts:67-79 | exactly the request step |
| DaemonClient.Client.OnEntry | packages/cli/src/daemon-client.ts:41-49 | exactly the answer step |
| DaemonClient.Client.OnClose | packages/cli/src/daemon-client.ts:53-64 | exactly the close step |
| DaemonClient.Client.Drain | packages/cli/src/daemon-client.ts:56-62 | every pending call and no other gets the closed error |
| DaemonClient.Client.Close | packages/cli/src/daemon-client.ts:80-85 | only the flag changes |
| FieldLine.UnchangedIff | packages/cli/src/fleet-promote-cli.ts:496-510 | rewriting a field line changes nothing iff the matched text already has that form |
| FieldLine.ReplaceSplits | packages/cli/src/fleet-promote-cli.ts:496-510 | rewriting swaps the matched text for the line and leaves the text before and behind it |
| FieldLine.ReplacedMatches | packages/cli/src/fleet-promote-cli.ts:496-510 | after rewriting, the field matches in the new form |
| FleetPromoteMoves.MovesAre | packages/cli/src/fleet-promote-cli.ts:245-276 | the moves are exactly the root entries that belong to the agent, each once |
| FleetPromoteMoves.MoveDownAt | packages/cli/src/fleet-promote-cli.ts:341-346 | the moves succeed iff none collides with a directory, and then where every file is |
| FleetPromoteMoves.MoveUpAt | packages/cli/src/fleet-promote-cli.ts:445-456 | where every file is after moving up, if nothing was in the way |
| FleetPromoted.PromoteOutcome | packages/cli/src/fleet-promote-cli.ts:213-387 | `promote` succeeds iff the plan does and nothing is in the way of its moves, rewrites and writes; a failed one leaves the directory unchanged iff the plan failed or something stood in the way of the directory or the first move |
| FleetPromoted.ApplyAt | packages/cli/src/fleet-promote-cli.ts:335-387 | the content of every path of the promoted tree |
| FleetDemote.ManifestReads | packages/cli/src/fleet-promote-cli.ts:530-544 | the written manifest lists exactly the promoted agent |
| FleetDemote.ChildrenAre | packages/cli/src/fleet-promote-cli.ts:445-447 | the agent's directory holds exactly what was moved there |
| FleetPromoteInverse.RestoresIff | packages/cli/src/fleet-promote-cli.ts:13-17 | `demote` after `promote` restores every file outside `package.json` iff there was no `agents/` and no `PROMOTED.md`, the name lines were bare and YAML reads the id as that string |
| FleetPromoteInverse.ClobbersIff | packages/cli/src/fleet-promote-cli.ts:449-453 | on a promoted directory the no-clobber check fires iff the agent's directory had an entry before that was not replaced and whose name is taken at the root |
| FleetPromoteInverse.MoveUpClobbers | packages/cli/src/fleet-promote-cli.ts:446-456 | on any tree it fires iff a name to be moved up is taken at the root |
| FleetPromoteInverse.RefusedDemoteKeeps | packages/cli/src/fleet-promote-cli.ts:445-456 | a `demote` refused half-way has lost and changed no file, on any tree |
| FleetPromoteInverse.DemoteLeavesNoFleet | packages/cli/src/fleet-promote-cli.ts:458-462 | after a successful `demote` of any tree neither `agents/` nor the note is left |
| FleetDemoteExact.DemoteExact | packages/cli/src/fleet-promote-cli.ts:397-471 | `demote` of any directory succeeds iff its manifest reads as exactly one agent with a well-formed id, the given one if any, whose directory exists, no name to be moved up is taken, and note and `package.json` can be handled; then the content of every path; a directory that fails the checks is left alone |
| FleetDemoteExact.ManyAgentsRefused | packages/cli/src/fleet-promote-cli.ts:416-421 | a fleet of several agents is refused and unchanged |
| FleetNames.PromoteExact | packages/cli/src/fleet-promote-cli.ts:213-240 | `promote` succeeds iff the directory is no fleet yet, its `agent.yaml` declares a name, the given id, or else that name, is well formed, and moves, rewrites and writes go through |
| FleetNames.PromotedIsNamed | packages/cli/src/fleet-promote-cli.ts:233-387 | the agent then stands under the given id, or else its declared name, in the manifest and in its own file, of which nothing else has changed |
| FleetPromote.Directory.BuildMoves | packages/cli/src/fleet-promote-cli.ts:242-276 | the plan's moves in order |
| FleetPromote.Directory.FileMoves | packages/cli/src/fleet-promote-cli.ts:246-252 | the per-agent files that exist, in list order |
| FleetPromote.Directory.DocumentMoves | packages/cli/src/fleet-promote-cli.ts:268-276 | the root's markdown files except the note |
| FleetPromote.Directory.ExecuteMoves | packages/cli/src/fleet-promote-cli.ts:343-346 | the renames up to the first that throws |
| FleetPromote.Directory.MoveChildrenUp | packages/cli/src/fleet-promote-cli.ts:446-456 | the renames up to the first that would clobber |
| FleetPromote.Directory.ApplyPromote | packages/cli/src/fleet-promote-cli.ts:213-387 | tree and error of the whole command, also when it throws half-way |
| FleetPromote.Directory.ApplyDemote | packages/cli/src/fleet-promote-cli.ts:397-471 | tree and error of the whole command, also when it throws half-way |
| FleetManifest.AppendAgentEntry | packages/cli/src/fleet-scaffold.ts:437-486 | the edited lines for both spellings of `agents:` |
| FleetManifest.EndOfBlock | packages/cli/src/fleet-scaffold.ts:465-474 | the insertion point is the first line that ends the block |
| FleetManifestProperties.AppendReads | packages/cli/src/fleet-scaffold.ts:431-486 | appending to a manifest that reads, with its agents as `[]` or as a block list at any indentation, adds exactly one entry at the end iff the list is empty or indented by two, and keeps it so; at the left margin or deeper than two the result is rejected by YAML |
| FleetManifestRuns.AppendSurvives | packages/cli/src/fleet-scaffold.ts:431-436 | every line other than an `agents:` line survives in order, for every manifest |
| FleetManifestRuns.EditExact | packages/cli/src/fleet-scaffold.ts:221-234 | the edit succeeds iff YAML reads the manifest, no entry reads as the id and there is an `agents:` line of one of the two forms; then all other lines survive, and the text reads as stated for AppendReads |
| FleetAdd.AddExact | packages/cli/src/fleet-scaffold.ts:180-269 | an add succeeds iff the id is well formed and not listed, YAML reads the manifest, the directory is new or the add forced, every file can be rewritten and written, and there is an `agents:` line that can be edited; then its files are in place, all other lines survive and nothing else changes; a failed add leaves the manifest alone, but a missing line shows only after all files are copied |
| FleetAdd.CopyExact | packages/cli/src/fleet-scaffold.ts:363-385 | the copy runs through iff every file can be rewritten and written, and then the content of every path |
| FleetAdd.Fleet.CopyDir | packages/cli/src/fleet-scaffold.ts:363-385 | the files written up to the first that throws |
| FleetAdd.Fleet.Add | packages/cli/src/fleet-scaffold.ts:180-269 | tree and error of the whole command, also when it throws half-way |
| FleetNames.AddedIsNamed | packages/cli/src/fleet-scaffold.ts:205-269 | after a successful add the directory is named after the given id, or else the declared name; `agent.yaml` and capabilities say that id and are otherwise unchanged, and every other file is a copy |
| FleetAdd.AddsExact | packages/cli/src/fleet-scaffold.ts:180-359 | after any sequence of successful adds to a list that is empty or indented by two: old entries then new ones, other lines and files kept, ids distinct if YAML reads them as they are, and added ids distinct without force whatever they read as |
| FleetAdd.SecondAddRefused | packages/cli/src/fleet-scaffold.ts:229-241 | after an add to such a list, the same add again is refused iff it is not forced or YAML reads the id as that string |
| FleetAdd.AddBreaksManifest | packages/cli/src/fleet-scaffold.ts:458-486 | after a successful add to a block list at the left margin or indented deeper than two, every later add of any agent fails |
| ServiceName.SanitizedIsServiceName | packages/cli/src/deploy-service-yaml.ts:24-37 | the result is never empty, at most 49 characters, lowercase letters, digits and single interior dashes |
| ServiceName.SanitizeFixpoints | packages/cli/src/deploy-service-yaml.ts:28-37 | the fixed points are exactly such names; hence idempotence |
| ServiceName.SanitizeKeepsWords | packages/cli/src/deploy-service-yaml.ts:28-37 | the result is the words joined by dashes if they fit, a prefix of at least 48 characters otherwise, the fallback iff there are none |
| ServiceName.NormalizeJoinsWords | packages/cli/src/deploy-service-yaml.ts:40-47 | normalisation keeps the words of the lowercased text in order, one dash between them |
| ServiceName.NormalizeFixpoints | packages/cli/src/deploy-service-yaml.ts:40-47 | the fixed points are exactly the normal names; hence idempotence |
| WhatsAppRuns.StepKeepsAgreement | packages/channel-whatsapp/src/conversation-window.ts:53-87 | every orderly step keeps cache, store and pending reads in agreement with the messages |
| WhatsAppRuns.InWindowIsExact | packages/channel-whatsapp/src/conversation-window.ts:62-68 | after every orderly run `isInWindow` is "last uncleared message + window > now", and every send so far was gated by its window |
| WhatsAppRuns.UndisturbedSend | packages/channel-whatsapp/src/instance.ts:283-289 | an undisturbed free-form send reaches the API iff its window is open |
| WhatsAppRuns.SendIsLogged | packages/channel-whatsapp/src/instance.ts:277-425 | any undisturbed send is logged once, under its own sender and payload, with the result the policy calls for; a free-form one under enforcement passes iff its window is open |
| WhatsAppRuns.WindowsOpenAndClose | packages/channel-whatsapp/src/conversation-window.ts:53-87 | a message opens its sender's window from its own timestamp on, and a clear closes it |
| WhatsAppRuns.StaleWarm | packages/channel-whatsapp/src/conversation-window.ts:75-81 | a write during a store read leaves a stale cache unless the window end is the same |
| WhatsAppRuns.FutureTimestamps | packages/channel-whatsapp/src/conversation-window.ts:54-59 | eviction and restart go unnoticed at every later clock iff the message was not stamped in the future |
| WhatsAppRuns.RestartWithoutStore | packages/channel-whatsapp/src/conversation-window.ts:8-11 | without a store a restart is harmless iff no window was open |
| WhatsAppRuns.QueuesAreExact | packages/channel-whatsapp/src/instance.ts:375-393 | over every run the queues hold exactly the sends queued since the start, in order |
| WhatsAppRuns.StopEmptiesQueues | packages/channel-whatsapp/src/instance.ts:157-159 | a stop empties all queues |
| WhatsAppChannel.Channel.RecordInbound | packages/channel-whatsapp/src/conversation-window.ts:53-60 | exactly the inbound step |
| WhatsAppChannel.Channel.Forget | packages/channel-whatsapp/src/conversation-window.ts:84-87 | exactly the clear step |
| WhatsAppChannel.Channel.LookInCache | packages/channel-whatsapp/src/conversation-window.ts:71-74 | known at once iff cached or there is no store |
| WhatsAppChannel.Channel.BeginSend | packages/channel-whatsapp/src/instance.ts:277-293 | exactly the first step of a send; templates bypass the window |
| WhatsAppChannel.Channel.EndSend | packages/channel-whatsapp/src/instance.ts:283-289 | exactly the step after the window lookup |
| WhatsAppChannel.Channel.Transmit | packages/channel-whatsapp/src/instance.ts:291-349 | which API call is made, or which error thrown |
| WhatsAppChannel.Channel.HandleOutOfWindow | packages/channel-whatsapp/src/instance.ts:356-425 | drop, queue or template fallback, and the queue afterwards |
| WhatsAppChannel.Channel.DoStop | packages/channel-whatsapp/src/instance.ts:157-159 | only the queues are cleared |
| WhatsAppChannel.Channel.TotalQueuedMessages | packages/channel-whatsapp/src/instance.ts:437-441 | the number of sends queued since the start |

## Left out

- TypeTextReads.TextReads: does not cover empty lists of alternatives, which print nothing, and descriptions, formats and reference targets with a `*/` in them, which end their comment early.
- TypeTextMeans.ParenthesesIff: states the loss of grouping for one union of two below an intersection of two; `TextMeans` says in general that grouping is lost only below an intersection.
- Schemas whose `properties` is a JSON array are read as having none, and type lists whose items are not strings as unknown types.
- Bounds, lengths, patterns, formats, uniqueness and `$ref` targets: arbitrary parameters of acceptance.
- `emitTypes`, `emitCapability` and the command around them: assembling the output file.
- The order of strings is by UTF-16 code unit, and strings are code units throughout; UTF-8 decoding is not modelled.
- `JSON.parse`, `JSON.stringify`, flow-style YAML values and `Number(..)` on digits are parameters or kept as text.
- Map keys such as `__proto__` or array indices in the website's parser: layouts use plain keys that start with a letter.
- Canonical layouts have no empty maps and lists and no text blocks as list items.
- The validator that the website runs on the parsed manifest: independent checks of single fields.
- Cache entries of the audit-sink registry are indices into a table of all entries ever made, not heap objects.
- SlackSocket: a second call of `connect()`, the frames and their acknowledgements.
- Ordering of microtasks: any order of enabled steps is allowed.
- Adapters that throw inside `deploy`, the deploy plan from the manifest, `--history-limit`, timestamps and versions.
- HostTail: requests, bearer tokens and the text of announcements.
- The fields of a log line after its JSON is parsed, and the timeout of a snapshot.
- Telegram: webhook mode, sending, and what `ingestUpdate` does with an update.
- DaemonClient: line framing of the socket and connection errors.
- FileTree: empty directories, permissions and symbolic links; a rename on one file system is one step.
- FleetPromote: the resolution of the path argument, dry runs and warnings; `package.json` and the note are texts given by parameters.
- FleetManifest: how YAML reads a single item of the list, the lines around the `agents:` value, and agents in any other style are parameters; anchors and aliases between items, and an id or path that keeps trailing line breaks, are not considered. What is read of agents in another style after an edit is not stated.
- FleetAdd: the two commands differ only in the order in which missing inputs are reported; the order of the first one is modelled. Symbolic links in a source directory are skipped by both.
- ServiceName: `toLowerCase` is a parameter that leaves lowercase names alone; the rendered service file and secret references to environment names.
- WhatsApp: store writes take effect when they are called and do not fail; media downloads, template components and the reply fields.
- Command-line verbs, terminal and web user interfaces, cryptography, credentials, and the SQLite stores.
