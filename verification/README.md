# A verified model of the compiler and the runtime kernel

The repository compiles a protocol written in YAML into registries, an intermediate representation and
verification modules, and runs it on an event-sourced kernel that fails closed. This project models the
parts of it that carry guarantees and proves them for all inputs, runs and interleavings:

- **Conditions** (`Vel*.dfy`): the condition parser, its canonical printer, its meaning and its memo.
- **Pass scheduling** (`PassOrder.dfy`, `PassRunner.dfy`): validation, Kahn's algorithm, and the driver that
  stops at the first failure.
- **Canonical text and integrity** (`Json*.dfy`, `Integrity.dfy`): key sorting, printing and reading of JSON,
  and the integrity block that the compiler writes and the runtime checks.
- **Merkle roots** (`Merkle.dfy`): what a root does and does not determine.
- **Atomic commit** (`StateRegistry.dfy`, `EventStore.dfy`, `AtomicCommit.dfy`): states and events committed
  together, with rollback.
- **Circuit breaker** (`CircuitBreaker.dfy`): overlapping calls as separate begin and finish events.
- **Event gate** (`EventGate.dfy`): audit and ordering checks in front of the store.
- **TLA+ generation** (`Tla.dfy`): operator names, and simulation in both directions.
- **Reference checks and the intermediate representation** (`Js.dfy`, `IrRecipes.dfy`, `IrBuilder.dfy`,
  `IrOrder.dfy`, `IrIds.dfy`, `NodeOrder.dfy`, `KeyOrder.dfy`, `Validate.dfy`, `Validator.dfy`, `ClosedIr.dfy`,
  `OpenIr.dfy`): what the validation pass reports, when the graph is closed, and when its hash ignores key order.
- **State sovereignty** (`Sovereignty.dfy`): the decoration of machines does not change verdicts.
- **Output comparison** (`Determinism.dfy`): tree comparison and tree digest.

`Text.dfy`, `Sorting.dfy` and `Options.dfy` hold what several of them share. Loops and objects of the code
are methods and classes, each proved equal to a function; the properties are lemmas about these functions.
`dafny verify dfyconfig.toml` checks everything.

## Reading the model

- SHA-256 is a parameter `h`. It is never assumed injective: where a result needs it, the lemma requires
  that `h` has no collision on the texts it names.
- Locale collation, upper-casing, number conversion and rounding are parameters; each lemma states what it
  needs of them (a total order, idempotence, independence of key order).
- A string is a sequence of Unicode scalar values; the default string order is the UTF-16 one. Case folding
  inside the condition parser and the lower-casing of capability domains are ASCII.
- JSON numbers are the decimal tokens the printer writes. Objects list their keys as the host language does,
  with array indices first, and assignment to `__proto__` adds nothing.
- Tree contents, parsed documents and handlers are arbitrary values; clocks, identifiers, failures of the
  store and of the registry are inputs.
- Node literals of the intermediate representation are written as expressions of a small language and
  evaluated, including the errors they raise on malformed documents. The identifier and the type of a node
  are put last instead of first, which changes the order of its keys only.

## What the code does that its comments do not say

- A failed commit puts back the old state of every touched key, but under the names of the update: a record
  stored under other names that spell the same key is not restored (`AtomicCommit.StatesRestoredIff`,
  `AtomicCommit.StarDomainIsLost`, `AtomicCommit.ColonMovesNames`). It also takes exactly one entry off the history
  of each key, so that the histories are restored exactly when each key was pushed once
  (`AtomicCommit.HistoryRestoredIff`).
- A success that arrives while the circuit is open clears the failure count, so that the next trial failure
  does not reopen it (`CircuitBreaker.ArmedIffNoLateSuccess`, `CircuitBreaker.LateSuccessDisarms`).
- The ordering gate advances its tracker before the inner store is written, so a failed write uses its number
  up: the stored numbers have no gap exactly when nothing is stored after a failure. At 2^53 the gate accepts
  the same number again (`EventGate.FailureLosesNumber`, `EventGate.StoredCountIff`, `EventGate.CapIsTakenAgain`).
- The validator reads the last file of each catalog and the builder the first, so that with two files of a
  kind a pass without errors does not close the graph (`OpenIr.SilentClosesIff`, `OpenIr.SilentButOpen`).
- A comment in the generator says that self-loops are not modelled; the code emits them, and so does the model.
- A machine whose transition map is empty loses its exemption through the added `abi` entry
  (`Sovereignty.DecorationKeepsVerdict`).
- The comment on canonical JSON mentions NFC and minimal white space; the code indents and does not normalise.
- Different trees have different digests, but equal trees share one exactly when the collation tells any two
  of their paths apart (`Determinism.EqualTreesShareDigestIff`, `Determinism.TiedPathsHaveTwoDigests`).
- A state called WF or SF, or one that begins with WF_ or SF_, gets actions whose names TLA+ does not accept
  (`Tla.ActionsRender`, `Tla.FairStateBreaksTheModule`).
- A machine without transitions that starts in INIT or ACTIVE gets steps from the default actions
  (`TlaSimulation.DefaultsAddNothingIff`).
- The hash of the representation depends on the order in which domains are written exactly when two entities
  of different domains, neither domain named by an array index, have one dotted name
  (`KeyOrder.KeyOrderFreeIff`, `KeyOrder.ClashShowsKeyOrder`).

## Model

| member | source | states |
|---|---|---|
| VelRoundTrip.RoundTrip | packages/shared/vel.js:12-40 | For every tree over the safe alphabet, a fresh parser reads its parenthesised text as exactly that tree when its connective height is at most `maxDepth`, and reports the depth error otherwise |
| VelRoundTrip.RoundTripAt | packages/shared/vel.js:21-40 | The same at every nesting depth: the tree comes back if and only if depth plus height stays within the limit |
| VelRoundTrip.PrintInjective | packages/shared/vel.js:21-40 | Different safe trees have different texts |
| VelSkip.SkipsPrint | packages/shared/vel.js:62 | The top-level splitter passes over a printed tree as one piece, at every parenthesis depth |
| VelSkip.SkipsQuoted | packages/shared/vel.js:62 | Nothing between two quotes of one kind, single or double, splits, opens or closes, whatever it is |
| VelSkip.BracketedNeverSplits | packages/shared/vel.js:62 | Nothing inside brackets splits, quoted texts and groups included, as long as what opens in there closes in there |
| VelSkip.ParenthesisedNeverSplits | packages/shared/vel.js:62 | Nor does anything inside parentheses, under the same condition |
| VelSkip.FlatIsEnclosed | packages/shared/vel.js:62 | A text without quotes, parentheses and brackets meets that condition |
| VelSkip.SkipsInside | packages/shared/vel.js:62 | A connective inside parentheses does not split |
| VelRoundTrip.SplitSegments | packages/shared/vel.js:62 | Pieces joined by a connective are exactly what the splitter for that connective returns |
| VelAtoms.CsvOfList | packages/shared/vel.js:63 | A printed list is cut exactly at the commas between its elements |
| VelAtoms.OperandRoundTrip | packages/shared/vel.js:64 | A safe operand (field, string, number or truth value) is read back as itself |
| VelAtoms.MemberAtom | packages/shared/vel.js:34-35 | A printed membership test is read back as itself and is not taken for a comparison or a keyword form |
| VelAtoms.CompareAtom | packages/shared/vel.js:36-37 | A printed comparison is read back with its operator, even where one operator is a prefix of another |
| VelScan.SplitTopLevelLoop | packages/shared/vel.js:62 | The index loop over quotes, parentheses and brackets returns the specified pieces |
| VelScan.BalancedLoop | packages/shared/vel.js:66 | The counting loop decides balance |
| VelScan.StripOuterParensLoop | packages/shared/vel.js:61 | The loop removes exactly the specified outer parentheses |
| VelScan.SplitCsvLoop | packages/shared/vel.js:63 | The comma loop returns the specified pieces |
| VelMeaning.FoldEval | packages/shared/vel.js:27-29 | Under any valuation of atoms the left fold by OR is the disjunction of its parts, by AND the conjunction |
| VelMeaning.SplitMeaning | packages/shared/vel.js:26-29 | For every text that splits and parses, the answer has the truth of the disjunction (OR) or conjunction (AND) of its separately parsed parts |
| VelMeaning.Precedence | packages/shared/vel.js:26-29 | Unparenthesised groups of conjuncts joined by OR parse to the OR fold of AND folds, exactly when the depth limit allows |
| VelMeaning.PrecedenceMeaning | packages/shared/vel.js:26-29 | AND binds tighter than OR: such a text is true if and only if all trees of some group are |
| VelMeaning.DepthBound | packages/shared/vel.js:22 | Every accepted text gives a tree whose nesting, same-operator left spines collapsed, is within the limit |
| VelMeaning.HeightUnbounded | packages/shared/vel.js:22-29 | The plain height is not bounded: chains of any length pass with a limit of one |
| VelParse.FieldReferencesExact | packages/shared/vel.js:45-60 | The reported fields are exactly those of the tree, each once, strictly increasing |
| VelParse.VELParser.constructor | packages/shared/vel.js:7 | A new parser has an empty, sound memo |
| VelParse.VELParser.ParseToAst | packages/shared/vel.js:12-20 | Whatever was parsed before, the answer is that of a fresh parser, and only successes enter the memo |
| VelParse.VELParser.Parse | packages/shared/vel.js:8-11 | Successes carry the tree and its fields, failures leave the memo alone; answers equal those of a fresh parser |
| PassOrder.CheckPasses | packages/compiler/src/pipeline/pass-runner.ts:125-132 | The first loop accepts exactly distinct, deterministic passes and names a real defect otherwise |
| PassOrder.CheckDependencies | packages/compiler/src/pipeline/pass-runner.ts:133-137 | The second loop accepts exactly known dependencies and names an unknown one otherwise |
| PassOrder.ValidateRegistry | packages/compiler/src/pipeline/pass-runner.ts:121-138 | Validation succeeds on exactly the well-formed registries |
| PassOrder.BuildGraph | packages/compiler/src/pipeline/pass-runner.ts:142-151 | Incoming counts and outgoing lists, repeated dependencies counted as often as they occur |
| PassOrder.InitialQueue | packages/compiler/src/pipeline/pass-runner.ts:153-156 | The passes without dependencies, by declaration index |
| PassOrder.Release | packages/compiler/src/pipeline/pass-runner.ts:162-170 | Counting down per child enqueues exactly the passes that become ready, once each, in index order |
| PassOrder.ComputeTopologicalOrder | packages/compiler/src/pipeline/pass-runner.ts:140-182 | The queue algorithm returns the specified order, or the cycle error exactly when passes remain; the loop ends |
| PassOrder.KahnRespects | packages/compiler/src/pipeline/pass-runner.ts:159-171 | Every placed pass comes after all its dependencies |
| PassOrder.CompleteIffAcyclic | packages/compiler/src/pipeline/pass-runner.ts:173-179 | All passes are placed if and only if no dependency cycle exists, self-dependency included |
| PassOrder.CompleteIsTopological | packages/compiler/src/pipeline/pass-runner.ts:159-182 | A complete result is a permutation of the passes with every dependency earlier |
| PassOrder.KahnIsLeast | packages/compiler/src/pipeline/pass-runner.ts:168 | The result comes first, by declaration indices, among all topological orders |
| PassOrder.RepeatsAreHarmless | packages/compiler/src/pipeline/pass-runner.ts:146-149 | Repeating an entry of `depends_on` does not change the order |
| PassRunner.CheckDependenciesCompleted | packages/compiler/src/pipeline/pass-runner.ts:213-217 | Reports the first dependency that has not completed, if there is one |
| PassRunner.RunPasses | packages/compiler/src/pipeline/pass-runner.ts:207-268 | The driver loop over arbitrary handlers yields the specified results, diagnostics, error and calls |
| PassRunner.OrderingNeverViolated | packages/compiler/src/pipeline/pass-runner.ts:213-217 | In a computed order the ordering error is unreachable, whatever the handlers do |
| PassRunner.ComputedOrderNeverViolated | packages/compiler/src/pipeline/pass-runner.ts:140-182 | The same for the order that the algorithm computes from a registry |
| PassRunner.NothingRunsAfterFailure | packages/compiler/src/pipeline/pass-runner.ts:233-264 | Handlers run along the order without gaps, and none after a call that threw or left an ERROR or FATAL |
| PassRunner.CompletesIff | packages/compiler/src/pipeline/pass-runner.ts:207-268 | A run completes if and only if every pass was invoked and no call failed |
| PassRunner.CompletedRunIsClean | packages/compiler/src/pipeline/pass-runner.ts:196-205 | A completed run of at least one pass ends without ERROR or FATAL diagnostics |
| PassRunner.CompletedFromEmpty | packages/compiler/src/pipeline/pass-runner.ts:222-232 | From empty results, a completed run reports exactly the order, all PASSED, numbered 1 to n |
| Merkle.BuildLevel | packages/runtime/src/audit/MerkleRootService.ts:59-64 | The pair loop fills the next level, the last leaf of an odd level paired with itself |
| Merkle.BuildMerkleTree | packages/runtime/src/audit/MerkleRootService.ts:56-67 | Recursion over levels returns the root, and ends because the list is not empty |
| Merkle.ComputeRoot | packages/runtime/src/audit/MerkleRootService.ts:13-38 | The root of the leaf hashes, and the empty-log root for no events |
| Merkle.PairBinding | packages/runtime/src/audit/MerkleRootService.ts:50-54 | The text hashed for a pair determines the pair up to order, and nothing more |
| Merkle.RootBindsSet | packages/runtime/src/audit/MerkleRootService.ts:50-67 | Logs of equal length with equal roots have the same set of leaf hashes |
| Merkle.OneLeafChangesRoot | packages/runtime/src/audit/MerkleRootService.ts:50-67 | Changing exactly one leaf changes the root |
| Merkle.LastLeafRepeated | packages/runtime/src/audit/MerkleRootService.ts:62 | An odd log has the root of the log with its last leaf repeated, so counts must be compared too |
| Merkle.ComputeBindsEvents | packages/runtime/src/audit/MerkleRootService.ts:13-38 | Equal counts and equal roots mean the same set of serialised events |
| MerkleMultiplicity.PowerOfTwoBindsMultiset | packages/runtime/src/audit/MerkleRootService.ts:56-67 | For lengths that are powers of two, equal roots mean the same multiset of leaves |
| MerkleMultiplicity.OtherLengthsDoNot | packages/runtime/src/audit/MerkleRootService.ts:56-67 | For every other length there are two logs with equal roots and different multisets, whatever the hash |
| MerkleMultiplicity.ThreeLeaves | packages/runtime/src/audit/MerkleRootService.ts:62 | The shortest such logs: [a, a, c] and [c, c, a] |
| JsonCanonical.SortKeysLoop | packages/compiler/src/utils/hash.ts:12-25 | Assigning the sorted keys one by one gives the specified tree, index-like keys and `__proto__` included |
| JsonCanonical.NormFieldsAre | packages/compiler/src/utils/hash.ts:12-25 | An object keeps exactly its defined fields, once each, in key order |
| JsonCanonical.NormKeepsMeaning | packages/compiler/src/utils/hash.ts:12-25 | Canonicalising changes nothing but key order and dropped fields |
| JsonCanonical.NormIffMeaning | packages/compiler/src/utils/hash.ts:12-25 | Two values have the same canonical tree if and only if they are equal up to key order, dropped fields aside |
| JsonText.StringRoundTrip | packages/compiler/src/utils/hash.ts:9 | Reading an escaped string gives the string |
| JsonText.PrintRead | packages/compiler/src/utils/hash.ts:9 | A printed value is read back as that value, whatever follows it that cannot prolong a number |
| JsonText.TextRoundTrip | packages/compiler/src/utils/hash.ts:9 | A canonical tree can be read off its text, with or without the final line end |
| JsonText.PrintHasNoReturn | packages/compiler/src/utils/hash.ts:9 | The printed text holds no carriage return, so the CRLF replacement is a no-op |
| JsonText.CanonicalIffSameMeaning | packages/compiler/src/utils/hash.ts:7-25 | `canonicalJson` of two values is the same text if and only if they are the same value up to key order at every depth |
| Integrity.IntegrityRoundTrip | packages/compiler/src/generators/registries.ts:87-106 | Every registry, decorated, printed, read back and verified, is reported verified, undefined fields and an older integrity block included |
| Integrity.VerifiedHashBinds | packages/runtime/src/authority/integrity-validator.ts:50-81 | Two registries that verify against the same stored hash carry the same payload up to key order, unless the hash collides on them |
| Integrity.TamperingIsReported | packages/runtime/src/authority/integrity-validator.ts:50-81 | With the stored block kept, a changed registry verifies if and only if the change is one of key order |
| StateRegistry.Registry.constructor | packages/runtime/src/execution/state-registry.ts:60-62 | A new in-process registry is empty |
| StateRegistry.Registry.HasState | packages/runtime/src/execution/state-registry.ts:64-76 | Whether a record is stored under the key |
| StateRegistry.Registry.GetState | packages/runtime/src/execution/state-registry.ts:78-102 | The stored state, or the resolved initial state, or INIT |
| StateRegistry.Registry.SetState | packages/runtime/src/execution/state-registry.ts:104-122 | Stores the record and extends the history when a transition is given |
| StateRegistry.Registry.Rollback | packages/runtime/src/execution/state-registry.ts:134-168 | Puts a state back or deletes it, and takes one entry off the history |
| EventStore.Store.CommitEnvelope | packages/runtime/src/server/eventStore.ts:211-228 | Log, counter and the three indexes grow together |
| EventStore.Store.AppendManyAtomic | packages/runtime/src/server/eventStore.ts:248-266 | All or nothing: a broken causation or a failed write restores log, counter and indexes |
| EventStore.AppendedIsWhole | packages/runtime/src/server/eventStore.ts:252-257 | An accepted batch is appended whole and in order |
| EventStore.AppendKeepsChain | packages/runtime/src/server/eventStore.ts:199-209 | A strict store keeps the causation chain over every accepted batch |
| EventStore.ReachesGenesis | packages/runtime/src/server/eventStore.ts:199-209 | In a log that keeps the chain, following causes backwards from any event reaches an event that started its correlation, or the first of the log |
| EventStore.IndexIsScan | packages/runtime/src/server/eventStore.ts:221-227 | Each index answers what a scan of the log would |
| AtomicCommit.PrepareUpdates | packages/runtime/src/execution/atomic-commit.ts:68-84 | One entry per key, in order of first occurrence, with the state to go back to |
| AtomicCommit.Execute | packages/runtime/src/execution/atomic-commit.ts:39-66 | A batch is committed whole, or the prepared updates are undone in reverse and no event is appended |
| AtomicCommit.SetAllAt | packages/runtime/src/execution/atomic-commit.ts:44-52 | A committed batch leaves, under each key, its last update and its transitions in order |
| AtomicCommit.AfterFailureAt | packages/runtime/src/execution/atomic-commit.ts:61-63 | Key by key, what rollback leaves after a failure at any point |
| AtomicCommit.StatesRestoredIff | packages/runtime/src/execution/atomic-commit.ts:59-65 | A failed batch leaves every state as it was if and only if the stored records carry the names of the updates |
| AtomicCommit.AliasIsRenamed | packages/runtime/src/execution/atomic-commit.ts:39-84 | A record stored under other names that spell the same key is not restored when the batch fails |
| AtomicCommit.StarDomainIsLost | packages/runtime/src/execution/atomic-commit.ts:39-84 | In particular a record of the domain called *, after an update without a domain |
| AtomicCommit.ColonMovesNames | packages/runtime/src/execution/atomic-commit.ts:39-84 | And a record of aggregate x:y with identifier z, after an update of aggregate x with identifier y:z |
| AtomicCommit.HistoryRestoredIff | packages/runtime/src/execution/atomic-commit.ts:59-65 | A failed batch leaves the histories as they were if and only if each touched key was pushed exactly once, or never onto an empty history |
| AtomicCommit.RepeatedKeyLeavesHistory | packages/runtime/src/execution/atomic-commit.ts:59-65 | A batch that repeats a key leaves a transition behind when it fails |
| AtomicCommit.SilentUpdateLosesHistory | packages/runtime/src/execution/atomic-commit.ts:59-65 | A batch without a transition loses an older history entry when it fails |
| AtomicCommit.KeyInjective | packages/runtime/src/execution/state-registry.ts:276-278 | With colon-free domains and aggregates, and no domain called `*`, the key tells names apart |
| AtomicCommit.SafeIsNameable | packages/runtime/src/execution/atomic-commit.ts:73 | Safe names meet the condition for restoring states |
| AtomicCommit.RunIsAllOrNothing | packages/runtime/src/execution/atomic-commit.ts:39-66 | Over every run of batches, failures at any point included, the states and the log are those of the committed batches alone |
| AtomicCommit.RegularRunIsExact | packages/runtime/src/execution/atomic-commit.ts:39-66 | With one transition per key and no rejected update, histories obey the same law: the registry is exactly what the committed updates make of it |
| CircuitBreaker.Circuit.constructor | packages/runtime/src/adapters/circuit-breaker.ts:26-35 | A new circuit is closed with clear counters |
| CircuitBreaker.Circuit.Enter | packages/runtime/src/adapters/circuit-breaker.ts:37-49 | Admission check with its transition to HALF_OPEN |
| CircuitBreaker.Circuit.OnSuccess | packages/runtime/src/adapters/circuit-breaker.ts:61-72 | The new state after a success |
| CircuitBreaker.Circuit.OnFailure | packages/runtime/src/adapters/circuit-breaker.ts:74-80 | The new state after a failure |
| CircuitBreaker.Circuit.Execute | packages/runtime/src/adapters/circuit-breaker.ts:37-59 | A call with nothing in between is its admission followed by its outcome, or a rejection that changes nothing |
| CircuitBreaker.CountersAlways | packages/runtime/src/adapters/circuit-breaker.ts:61-80 | For every interleaving: counters stay below their thresholds where these decide, OPEN knows its failure time, and CLOSED counts exactly the trailing failures |
| CircuitBreaker.OpensExactlyAfterFailures | packages/runtime/src/adapters/circuit-breaker.ts:74-80 | A closed circuit opens exactly when the last `failureThreshold` finished calls all failed |
| CircuitBreaker.OpenAdmitsIff | packages/runtime/src/adapters/circuit-breaker.ts:38-49 | While OPEN a call begins if and only if every failure recorded so far is at least `timeoutMs` old |
| CircuitBreaker.Cooldown | packages/runtime/src/adapters/circuit-breaker.ts:38-49 | After a failure that leaves it OPEN, the circuit stays OPEN and rejects every call for `timeoutMs`, whatever finishes meanwhile |
| CircuitBreaker.ArmedIffNoLateSuccess | packages/runtime/src/adapters/circuit-breaker.ts:61-80 | Outside CLOSED the failure count stays at the threshold throughout a run if and only if no success arrives while OPEN |
| CircuitBreaker.SerialHasNoLateSuccess | packages/runtime/src/adapters/circuit-breaker.ts:37-59 | Serial runs meet that condition |
| CircuitBreaker.SerialFailureReopens | packages/runtime/src/adapters/circuit-breaker.ts:74-80 | In a serial run one failure in HALF_OPEN reopens the circuit |
| CircuitBreaker.LateSuccessDisarms | packages/runtime/src/adapters/circuit-breaker.ts:69-71 | An interleaving in which a failure in HALF_OPEN does not reopen it |
| CircuitBreaker.ClosesOnlyAfterSuccesses | packages/runtime/src/adapters/circuit-breaker.ts:62-68 | Without late successes the circuit closes only after the last `successThreshold` finished calls succeeded |
| CircuitBreaker.Recovers | packages/runtime/src/adapters/circuit-breaker.ts:37-72 | Once a call is admitted after the pause, and as long as none fails, the circuit closes with clear counters exactly at the `successThreshold`-th success, whichever calls these belong to and whatever else begins |
| CircuitBreaker.SerialRecovers | packages/runtime/src/adapters/circuit-breaker.ts:37-72 | In particular serial trial calls, the first after the pause: the run is serial and the circuit closes with the `successThreshold`-th |
| CircuitBreaker.SerialIsFeasible | packages/runtime/src/adapters/circuit-breaker.ts:37-59 | In a serial run every call that finishes has begun |
| EventGate.AuditAllowsIff | packages/runtime/src/execution/AuditTrailEnforcer.ts:45-102 | The audit gate passes exactly the events with a complete envelope |
| EventGate.InMemorySequenceTracker.GetLastSequence | packages/runtime/src/execution/EventOrderingEnforcer.ts:35-37 | The last sequence of a stream, if any |
| EventGate.InMemorySequenceTracker.SetLastSequence | packages/runtime/src/execution/EventOrderingEnforcer.ts:39-41 | Records the last sequence of one stream only |
| EventGate.EventOrderingEnforcer.Enforce | packages/runtime/src/execution/EventOrderingEnforcer.ts:55-114 | The ordering gate allows exactly the next number of a stream and then advances the tracker |
| EventGate.EventStoreEnforcementWrapper.Append | packages/runtime/src/execution/EventStoreEnforcementWrapper.ts:61-79 | Audit gate, then ordering gate, then inner store, with the outcome and both states |
| EventGate.StoredAreThePassed | packages/runtime/src/execution/EventStoreEnforcementWrapper.ts:61-79 | Over every run, what is stored is what passed both gates and did not fail in the inner store |
| EventGate.StoredAreAcceptable | packages/runtime/src/execution/AuditTrailEnforcer.ts:45-102 | Every stored event has a complete audit envelope and, if sequenced, a usable number and stream |
| EventGate.PassedCount | packages/runtime/src/execution/EventOrderingEnforcer.ts:86-113 | The numbers that pass in a stream are 1, 2, 3, and so on, and the tracker holds the last |
| EventGate.StoredStrictlyIncrease | packages/runtime/src/execution/EventOrderingEnforcer.ts:86-113 | Inner failures included, stored numbers strictly increase and the tracker is never below them, until the tracker reaches 2^53 |
| EventGate.StoredCount | packages/runtime/src/execution/EventStoreEnforcementWrapper.ts:61-79 | Without inner failures the stored numbers are exactly 1 to n and the tracker is n |
| EventGate.StoredCountIff | packages/runtime/src/execution/EventStoreEnforcementWrapper.ts:61-79 | With inner failures they are 1 to n if and only if nothing is stored in the stream after a failure on a number below 2^53 |
| EventGate.PassedIncreaseIff | packages/runtime/src/execution/EventOrderingEnforcer.ts:55-114 | Over every run the numbers that pass in a stream strictly increase if and only if no more than 2^53 of them pass, where adding one to a double stops changing it |
| EventGate.CapIsTakenAgain | packages/runtime/src/execution/EventOrderingEnforcer.ts:101 | A stream whose tracker stands at 2^53 takes an event of that number again, and its tracker stays |
| EventGate.CapIsStoredTwice | packages/runtime/src/execution/EventOrderingEnforcer.ts:101 | A run that stores two events of one stream under the number 2^53 |
| EventGate.DecimalCapIsStoredTwice | packages/runtime/src/execution/EventOrderingEnforcer.ts:101 | Such a run written out, with decimal numbers |
| EventGate.FailureLosesNumber | packages/runtime/src/execution/EventStoreEnforcementWrapper.ts:61-79 | A number below 2^53 lost to an inner failure is never stored in its stream |
| EventGate.RetryIsRejected | packages/runtime/src/execution/EventStoreEnforcementWrapper.ts:61-79 | Retrying such an event at once, its number below 2^53, is an order violation |
| EventGate.OthersDoNotMatter | packages/runtime/src/execution/EventOrderingEnforcer.ts:55-114 | Rejected appends and other streams do not change what a stream accepts next |
| TlaNames.MakeUnique | packages/compiler/src/generators/tla.ts:52-55 | The renaming loop ends and returns the base name or its first free numbered variant |
| Tla.EndpointsFromName | packages/compiler/src/generators/tla.ts:177-183 | Without both endpoints, a name is split at its first marker, and gives nothing exactly when it has none |
| Tla.CollectActions | packages/compiler/src/generators/tla.ts:36-58 | The loop yields the specified actions, or fails exactly when a usable transition has no definition |
| Tla.ActionsRender | packages/compiler/src/generators/tla.ts:50-57 | One action per edge with upper-cased endpoints; names pairwise distinct, and TLA+ identifiers exactly when both endpoints are words and the first is neither WF nor SF nor begins with WF_ or SF_ |
| Tla.FairStateBreaksTheModule | packages/compiler/src/generators/tla.ts:50-57 | A transition from a state called wf to one called done is named WF_TO_DONE, which TLA+ does not accept |
| TlaModel.GenerateTLA | packages/compiler/src/generators/tla.ts:16-150 | States, final states, initial state and sorted actions of the emitted module, defaults included |
| TlaModel.NextMeans | packages/compiler/src/generators/tla.ts:122-123 | The disjunction of names in `Next`, resolved by name, is some action or the final stuttering |
| TlaModel.GeneratedNamesResolve | packages/compiler/src/generators/tla.ts:50-57 | In every generated module no action name repeats or hides another definition or variable |
| TlaSimulation.Simulates | packages/compiler/src/generators/tla.ts:97-123 | The upper-cased trace of every run of the machine is a behaviour of the emitted module |
| TlaSimulation.BehavioursAreRuns | packages/compiler/src/generators/tla.ts:97-123 | Conversely every behaviour is, stuttering aside, such a trace, when upper-casing tells the states apart and, for a machine without transitions, the initial state is neither INIT nor ACTIVE |
| TlaSimulation.DefaultsAddSteps | packages/compiler/src/generators/tla.ts:63-69 | A machine without transitions that starts where a default action does gets a step it does not have |
| TlaSimulation.DefaultsAddNothingIff | packages/compiler/src/generators/tla.ts:63-69 | For a machine without transitions every behaviour is the trace of a run if and only if it starts neither in INIT nor in ACTIVE |
| TlaSimulation.AddsNothingIff | packages/compiler/src/generators/tla.ts:97-123 | For a machine with transitions it is so if and only if, wherever a run stands, in upper case, at the start of an edge, some run that looks the same can take a step that looks the same |
| TlaSimulation.CaseMergesStates | packages/compiler/src/generators/tla.ts:42-43 | A machine whose states differ only in case gets a step it does not have |
| TlaSimulation.VisitedIsSeen | packages/compiler/src/generators/tla.ts:99-106 | `visited` is exactly the set of states seen so far |
| TlaSimulation.InvariantsAgree | packages/compiler/src/generators/tla.ts:125-130 | `TypeOK` holds always if and only if `ReachableStatesDeclared` does |
| TlaSimulation.TypeOKIff | packages/compiler/src/generators/tla.ts:127 | They hold if and only if the initial state is declared and every reachable action leads to a declared state |
| TlaSimulation.DeclaredMachineIsTypeOK | packages/compiler/src/generators/tla.ts:125-130 | They hold for machines that declare their initial state and every target |
| Validate.CheckReferences | packages/compiler/src/pipeline/validate.ts:70-226 | The loops over commands and machines report exactly the specified reference errors, or throw |
| Validator.IndexDomains | packages/compiler/src/pipeline/validate.ts:34-43 | Indexing the domain model throws exactly when a domain has no definition |
| Validator.CheckSteps | packages/compiler/src/pipeline/validate.ts:229-259 | The loops over sagas and their steps report each unresolved command of a saga once, or throw |
| Validator.CheckStray | packages/compiler/src/pipeline/validate.ts:269-296 | The loops over the other sections of the command catalog report every command-shaped entry |
| Validator.CheckInvariants | packages/compiler/src/pipeline/validate.ts:342-358 | The loop over the ten expected invariants reports the missing ones |
| Validator.ValidateReferences | packages/compiler/src/pipeline/validate.ts:4-368 | The whole pass reports exactly the specified errors of every check, or throws |
| Validator.NoErrorIff | packages/compiler/src/pipeline/validate.ts:4-368 | There is no error at all if and only if the domain model can be read, the envelope has ten fields, commands are closed, machines bound, saga steps resolved, no section hides a command and the constitution lists its invariants |
| Validator.NoErrorIsSilent | packages/compiler/src/pipeline/validate.ts:4-368 | In particular the reference checks are then silent |
| Validate.CheckCommandIff | packages/compiler/src/pipeline/validate.ts:79-126 | A command draws no error if and only if its events and capability are in the catalogs and its gates are stated |
| Validate.CheckMachineIff | packages/compiler/src/pipeline/validate.ts:131-225 | A machine draws no error if and only if its commands, triggers and emitted events resolve |
| Validate.SilentIff | packages/compiler/src/pipeline/validate.ts:77-226 | No reference error is reported if and only if every command is closed and every machine is bound |
| ProtocolFiles.FindLast | packages/compiler/src/pipeline/validate.ts:24-32 | The catalog used is the last file of its kind |
| IrBuilder.CollectLoop | packages/compiler/src/ir/builder.ts:43-62 | A loop that pushes nodes and edges collects them in order, or throws |
| IrBuilder.BuildIRLoop | packages/compiler/src/ir/builder.ts:5-239 | The seven loops and two sorts yield the specified nodes and edges |
| IrBuilder.CollectSort | packages/compiler/src/ir/builder.ts:66-67 | Visiting entries in sorted order yields the same nodes and edges |
| ClosedIr.LinkedEventsAre | packages/compiler/src/ir/builder.ts:85-96 | The linked events are the success and failure lists, and the linked capability is the required one |
| ClosedIr.EventEdgesClosed | packages/compiler/src/ir/builder.ts:91-93 | When validation reports no error and catalogs come in one file each, every `command_produces_event` edge reaches an event node |
| ClosedIr.CapabilityEdgesClosed | packages/compiler/src/ir/builder.ts:94-96 | And every `command_requires_capability` edge reaches a capability node or carries an exempted name |
| ClosedIr.TransitionsAreBound | packages/compiler/src/pipeline/validate.ts:181-224 | And every transition that is not bookkeeping has its trigger and emitted events in the catalog |
| ClosedIr.EventEdgeReachesIff | packages/compiler/src/ir/builder.ts:11-12 | In any case an event edge reaches a node if and only if the event is in the first event catalog |
| OpenIr.EventEdgesReachIff | packages/compiler/src/ir/builder.ts:64-118 | All event edges reach a node if and only if every event a command is linked to is in the first event catalog |
| OpenIr.SilentClosesIff | packages/compiler/src/pipeline/validate.ts:24-32 | With several event catalogs, silence closes the event edges if and only if those names of the last catalog that commands are linked to are also in the first |
| OpenIr.CapabilityEdgeReachesIff | packages/compiler/src/ir/builder.ts:94-96 | In any case a capability edge reaches a node if and only if the first capability file offers the capability |
| OpenIr.CapabilityEdgesReachIff | packages/compiler/src/ir/builder.ts:94-96 | All capability edges reach a node if and only if every required capability is offered there |
| OpenIr.SilentButOpen | packages/compiler/src/pipeline/validate.ts:24-32 | Six files with two event catalogs and two capability files: the whole pass reports no error, and an event edge and a capability edge lead nowhere |
| IrRecipes.EvalEquiv | packages/compiler/src/ir/builder.ts:75-88 | Every node literal computes the same up to key order from definitions equal up to key order |
| IrOrder.GatherAlike | packages/compiler/src/ir/builder.ts:42-213 | Documents equal up to key order give the same nodes up to key order and the same edges, or throw alike |
| IrOrder.IrIgnoresKeyOrder | packages/compiler/src/ir/builder.ts:215-236 | With unique identifiers and a total collation they give the same sorted nodes, sorted edges and hash |
| IrIds.UniqueIdsIff | packages/compiler/src/ir/builder.ts:18-213 | Node identifiers are unique if and only if no dotted entity names, capability identifiers or saga identifiers clash |
| IrIds.NoClashIgnoresKeyOrder | packages/compiler/src/ir/builder.ts:215-236 | Without such clashes nodes, edges and hash ignore key order; this is sufficient |
| NodeOrder.SameTextIff | packages/compiler/src/ir/builder.ts:191-236 | Documents that are the same up to key order give the same text if and only if the nodes of each identifier are made in the same order |
| NodeOrder.OnlyEntitiesMatter | packages/compiler/src/ir/builder.ts:18-188 | And of all nodes only those of entities can be made in different orders |
| KeyOrder.KeyOrderFreeIff | packages/compiler/src/ir/builder.ts:42-62 | The text and hash are the same for every order in which the maps can be written if and only if no two entities of different domains, neither named by an array index, share a dotted name |
| KeyOrder.ClashShowsKeyOrder | packages/compiler/src/ir/builder.ts:42-62 | The entities b.c of a and c of a.b: the two orders of the domains give different texts |
| ProtocolFiles.CompileIgnoresKeyOrder | packages/compiler/src/ir/builder.ts:5-239 | The same, on documents free of clashes, stated on the list of source files, version included |
| ProtocolFiles.CompileOrderFreeIff | packages/compiler/src/ir/builder.ts:5-239 | The exact condition stated on the list of source files |
| ProtocolFiles.VersionEquiv | packages/compiler/src/pipeline/parse.ts:31-33 | The protocol version does not depend on key order |
| IrOrder.IrHashBinds | packages/compiler/src/ir/builder.ts:234-236 | Equal hashes without a collision mean the same nodes up to key order and the same edges |
| Sovereignty.WithAbiLoop | packages/compiler/src/generators/registries.ts:363-371 | Filling the fresh objects yields the specified decorated value |
| Sovereignty.DecoratedAlike | packages/compiler/src/generators/registries.ts:363-371 | The check cannot tell a decorated transition from the original |
| Sovereignty.DecorationKeepsVerdict | packages/runtime/src/execution/StateSovereigntyEnforcer.ts:58-106 | Decorated transitions, map or list, get the verdict of the originals if and only if there is a transition, or no map to decorate, or the state is INIT |
| Sovereignty.StoringKeepsVerdict | packages/runtime/src/execution/StateSovereigntyEnforcer.ts:58-106 | Canonical printing and reading back keeps the verdict |
| Sovereignty.LoadedKeepsVerdict | packages/runtime/src/execution/StateSovereigntyEnforcer.ts:58-106 | The verdict on the machine the runtime loads is the verdict on the source, with the same one exception |
| MachineRegistry.BuildEntries | packages/compiler/src/generators/registries.ts:142-157 | The loop fills one entry per machine |
| MachineRegistry.RegistryKeepsVerdict | packages/runtime/src/execution/StateSovereigntyEnforcer.ts:39-107 | The check against the stored registry gives the verdict on the transitions as written of the machine for the aggregate whose name comes first in key order, with the same one exception |
| MachineRegistry.UngovernedIsAllowed | packages/runtime/src/execution/StateSovereigntyEnforcer.ts:54-56 | An aggregate without a machine is allowed |
| Determinism.CompareTrees | packages/compiler/src/determinism.ts:57-72 | The loop over the sorted union of paths reports the specified differences |
| Determinism.ComparisonIsExact | packages/compiler/src/determinism.ts:57-72 | Each differing path is named exactly once, with the right kind, and no other path is |
| Determinism.NoDifferenceIffEqual | packages/compiler/src/determinism.ts:57-72 | Nothing is reported if and only if the trees are equal |
| Determinism.SameListing | packages/compiler/src/determinism.ts:76-78 | Under a collation that separates their paths, equal trees are listed alike whatever order their files were added in |
| Determinism.DigestDetermines | packages/compiler/src/determinism.ts:75-80 | Equal digests mean equal trees under any collation, for line-free paths and hexadecimal hashes without collision |
| Determinism.EqualTreesShareDigestIff | packages/compiler/src/determinism.ts:74-80 | Every tree equal to a given one has its digest if and only if the collation tells any two of its paths apart |
| Determinism.TiedPathsHaveTwoDigests | packages/compiler/src/determinism.ts:74-80 | Two files whose paths the collation ties, entered in either order: no difference is found and the digests differ |
| Determinism.DigestIffEqual | packages/compiler/src/determinism.ts:75-80 | Digests are equal if and only if the trees are, for line-free paths, hexadecimal hashes without collision and a collation that separates the paths |
| Determinism.IdenticalIff | packages/compiler/src/determinism.ts:120-132 | Two runs are reported identical if and only if trees and build hashes are equal |

## Left out

- Network, files, processes, databases, YAML loading and the Postgres modes of the registry and the stores.
- The insides of SHA-256, Unicode normalisation, locale collation, floating-point arithmetic and the
  general regular-expression engine; the patterns used are matched by hand-written predicates.
- The evaluator that resolves fields against a context: conditions are given meaning under any valuation of atoms.
- Conditions outside the safe alphabet in the round trip: names that are keywords, and string literals that
  hold quotes, parentheses, brackets, operators or line ends. Splitting, meaning, depth and memo are for all texts.
- EventStore.Store.AppendManyAtomic: publication to subscribers, freezing, timestamps and the persisted file
  are not modelled; whether the write succeeds is an input.
- EventGate.EventStoreEnforcementWrapper.Append: appends are taken one after the other, because the gate reads
  and writes its tracker across awaits; stream identifiers that are objects are compared by content, not by
  identity; forwarding of other members by the proxy is not modelled.
- AtomicCommit.Execute: one batch at a time. That states go back when a stored record carries other names than
  the update is not claimed; AtomicCommit.StatesRestoredIff gives the exact condition.
- Merkle.ComputeRoot: how an event is serialised into a leaf text is a parameter.
- Validator.ValidateReferences: warnings, the wording of diagnostics and their final sorting are left out.
- Tla.CollectActions: endpoints that are lists are their text; the comment lines with triggers are not modelled.
- TlaModel.GenerateTLA: the module is modelled as its definitions, not as text; `CanTerminate` is not given a meaning.
- Sovereignty.DecorationKeepsVerdict: keys called `__proto__` are excluded.
- TlaSimulation.BehavioursAreRuns: its condition on upper-casing is sufficient and easy to check;
  TlaSimulation.AddsNothingIff gives the exact one.
- Determinism.IdenticalIff: collecting the trees and reading the build hash from disk.
- Wall-clock timestamps, random identifiers, logging, status reports and message texts.
- String-emitting generators, rail drivers, registry bootstrap, capability and authority adapters, sagas at
  run time: templates, input/output or single-pass branch checks without an invariant of their own.
