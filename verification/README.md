# Opsy: verified model of the provider bridge and the thinking-block runner

A Dafny 4.11 model of six parts of the repository and proofs of what they promise. Source paths below
are relative to the repository root. `dafny verify dfyconfig.toml` checks everything.

| part | source | modules |
|---|---|---|
| codec between JSON and Terraform values | `bridge/codec` | Numbers, Rounding, NumberText, NumberGrammar, TfTypes, Codec, CodecLoops, CodecLaws, CodecMeaning |
| artifact store, runner and attempts | `packages/thinking-blocks` | ArtifactStore, Runner, RunnerSafety, RunnerLaws, RunnerCommits, RunnerProgress, TwoRunners, Attempts, AttemptsTrace |
| canonical printing; struct ordering | `hash.ts`, `gen-wire` | Order, StableStringify, StableText, TopoSort |
| provider pool; schema cache | `bridge/provider`, `bridge/schema` | Pool, PoolRecency, SchemaDto, SchemaDtoLoops, SchemaCache, CachePublish, CacheRestore |
| type search | `bridge/schema/service.go` | Text, TypeSearch, TypeSearchScores |
| apply; field tree | `bridge/handler`, `packages/provider` | ResourceApply, ResourceApplyLaws, ResourceApplyReplies, FieldTree, FieldTreeLaws, FieldMeaning |

Conventions:

- Code that loops or mutates is a method or a class, proved equal to a specification function; the laws
  are lemmas about that function. Pure code is a function.
- What the code cannot see (provider, agent, validators, clock, map iteration order, crashes) is an
  oracle whose answers may depend on everything before, or a nondeterministic step. A law that holds
  for every oracle or every run holds for every behaviour of the outside.
- Concurrency is a transition system: a step is a stretch of code without an `await`, a section under a
  lock, or one file-system operation. Safety is an invariant of every reachable state.
- A promise that needs a condition is stated as "if and only if", or comes with an input that breaks it.

Where the code and its own words disagree, the model follows the code:

- `bridge/internal/staleplan/staleplan.go:88` says a dynamic value holding JSON `null` counts as null; the
  code looks at empty bytes and at msgpack nil only (`ResourceApplyLaws.JsonIsNeverNull`).
- `bridge/cmd/gen-wire/main.go:215` says cycles are broken before the sort; the sort itself terminates on
  any graph and still permutes its input (`TopoSort.Sort`).
- `markArtifactReady` supersedes the other ready artifacts before it looks its own artifact up, so an
  unknown id still supersedes them and then throws (`ArtifactStore.MemoryStore.MarkArtifactReady`).
- The handler does not look at what a destroy was planned to leave behind
  (`bridge/handler/resource_apply.go:220`); `ResourceApplyLaws.TwoLiveExactly` says what follows.
- Paths are joined with `prefix ? … : name` (`packages/provider/src/field-tree.ts:93-95`), so an empty name at
  the root adds no segment; `FieldTreeLaws.DistinctExactly` and `FieldTreeLaws.PathsFollowTheTreeExactly`
  give the exact conditions.
- A large offset overflows the page bounds and the slice panics (`bridge/schema/service.go:162`);
  `TypeSearch.PageIsSlice` says exactly when.

## Model

| member | source | states |
|---|---|---|
| Numbers.FitsIffRepresentable | bridge/codec/dynamic_value.go:217 | Parsing at a precision of p bits leaves a number alone exactly when it is m·2^e for an integer m of at most p bits |
| Numbers.RoundFits | bridge/codec/dynamic_value.go:217 | What parsing yields is itself unchanged by parsing |
| Numbers.RoundIsMonotone | bridge/codec/dynamic_value.go:217 | Parsing keeps the order of numbers |
| Rounding.RoundIsNearest | bridge/codec/dynamic_value.go:217 | No number the precision can hold is nearer to a literal than what parsing gives, and on a tie it is the one with the even mantissa |
| Numbers.ShortestFrom | bridge/codec/dynamic_value.go:382 | The decimal printed for a value parses back to it at the value's own precision |
| Numbers.LiteralIsShortest | bridge/codec/dynamic_value.go:378-382 | At the value's own precision no decimal with fewer digits after the point parses to it |
| Numbers.CoarserParsesAlike | bridge/codec/dynamic_value.go:217 | What parses to a value at some precision parses to it at every lower precision that holds it |
| Numbers.SurvivesExactly | bridge/codec/dynamic_value.go:217-382 | Printing at the own precision and parsing at 64 bits gives a number back if and only if 64 bits hold it and, if it is held with fewer, it prints as it would with 64 |
| Numbers.IntegerSurvives | bridge/codec/dynamic_value.go:378-381 | For integers, and for 64 bits or more, that is if and only if 64 bits hold it |
| Numbers.TenthIsLost | bridge/codec/dynamic_value.go:382 | The float64 nearest to one tenth prints as 0.1, which 64-bit parsing takes for another number |
| NumberGrammar.LiteralReads | bridge/codec/dynamic_value.go:213-220 | A quoted literal minus? int frac? exp? (section 6 of RFC 8259) reads as the number it says |
| NumberGrammar.OnlyLiteralsRead | bridge/codec/dynamic_value.go:213-220 | And nothing else is read as a number |
| CodecLaws.CompiledIsConsistent | bridge/codec/schema.go:53-93 | At every depth the block table and the wire type of a compiled schema agree, the dynamic Tuple and Object fallbacks included |
| CodecMeaning.AttributeCompiles | bridge/codec/schema.go:99-127 | A nested attribute compiles to a List, Set or Map of an object, or to the bare object, by its nesting, the last of a name counting; any other attribute to its own type |
| CodecMeaning.BlockCompiles | bridge/codec/schema.go:53-93 | A block compiles to an object of exactly its attributes and nested blocks, and the block table names exactly the nested blocks |
| CodecMeaning.NestedCompiles | bridge/codec/schema.go:61-87 | A nested block is a List, Set or Map of its body, the body itself, or with dynamic parts in a List or Map an empty Tuple or Object; the table records its nesting and body |
| CodecMeaning.AttributeStays | bridge/codec/schema.go:57-59 | An attribute no nested block shares the name of keeps its own type, the last of its name |
| CodecMeaning.HasDynamicExactly | bridge/codec/schema.go:129-160 | A type has a dynamic part if and only if some fully known value of it does not survive the codec |
| CodecLaws.ChildPosition | bridge/codec/dynamic_value.go:126-137 | Stepping to an attribute keeps that agreement and gives exactly the attribute's wire type |
| CodecLaws.ElementPosition | bridge/codec/dynamic_value.go:139-156 | Stepping into a collection through the marker key keeps that agreement and gives the element type |
| CodecLaws.AbsentBlockInhabits | bridge/codec/dynamic_value.go:162-189 | The default for an absent block is a value of the block's wire type |
| CodecLaws.DecodeInhabits | bridge/codec/dynamic_value.go:194-353 | Every successful decode is a value of the type it was decoded at |
| CodecMeaning.AbsentDecodes | bridge/codec/dynamic_value.go:162-189 | At any depth of any compiled schema an absent attribute or Single block decodes to null, an absent List or Set block to no items, an absent Map block to no entries, and an absent Group block to an object whose parts are absent in turn |
| CodecMeaning.DecodesExactly | bridge/codec/dynamic_value.go:194-353 | Decoding fails exactly on JSON of the wrong kind, length or number format or when a part fails; otherwise null is null, scalars are as written, dynamics unknown, and every part is in its place |
| CodecMeaning.JsonComesBack | bridge/codec/dynamic_value.go:194-439 | JSON that decodes is encoded again unchanged if and only if every attribute is written and nothing else, numbers are unquoted and as they are printed, and dynamic positions are null |
| CodecLaws.DecodeEncodeSettles | bridge/codec/dynamic_value.go:194-439 | On every compiled schema, decoding an encoded value succeeds and gives the settled value: unknowns null, known dynamics unknown, numbers what their literals parse to |
| CodecLaws.RoundTrip | bridge/codec/dynamic_value.go:194-439 | Decoding the encoding returns the same value, numbers compared by value, if and only if it has no unknown, only numbers that survive, and nothing but null at dynamic positions |
| CodecLaws.StaticRoundTrip | bridge/codec/dynamic_value.go:194-439 | On a dynamic-free schema every fully known value round-trips, nulls anywhere, blocks at any depth, if 64 bits hold its numbers and the non-integers among them are held at 64 bits or more |
| CodecLaws.Float64IsLost | bridge/codec/dynamic_value.go:370-383 | A float64 of 53 bits need not round-trip, though 64 bits hold it |
| CodecLaws.NormalisationIsIdempotent | bridge/codec/dynamic_value.go:194-439 | Decode, encode, decode, encode gives the same JSON as decode, encode, on every schema including the dynamic fallbacks |
| CodecLaws.BlocksAreNullFree | bridge/codec/dynamic_value.go:157-189 | The decoded value has no null at any List, Set, Map or Group block reached at any depth if and only if the JSON has no explicit null at a block or block element |
| CodecLaws.AbsentGroupIsEmptyObject | bridge/codec/dynamic_value.go:169-189 | Leaving a Group block out decodes exactly as writing it as an empty object |
| CodecLoops.CompileAttribute | bridge/codec/schema.go:99-104 | The recursion over nested attributes computes the attribute type the laws speak of |
| CodecLoops.CompileObject | bridge/codec/schema.go:111-127 | The loop over nested attributes fills the object type and wraps it by nesting |
| CodecLoops.CompileBlock | bridge/codec/schema.go:53-93 | The two loops over attributes and blocks build the compiled schema the laws speak of |
| CodecLoops.FillAbsentBlock | bridge/codec/dynamic_value.go:162-173 | Computes the absent-block default |
| CodecLoops.FillGroup | bridge/codec/dynamic_value.go:175-189 | The loop over an absent group's attributes, recursing into its blocks |
| CodecLoops.JsonToValue | bridge/codec/dynamic_value.go:194-353 | The type dispatch with its loops decodes as specified, failures included |
| CodecLoops.ObjectToValue | bridge/codec/dynamic_value.go:239-266 | The loop over wire attributes, defaulting absent ones and ignoring unknown keys |
| CodecLoops.MapToValue | bridge/codec/dynamic_value.go:307-326 | The loop over map members in any order |
| CodecLoops.ListToValue | bridge/codec/dynamic_value.go:267-306 | The loop over list and set items |
| CodecLoops.TupleToValue | bridge/codec/dynamic_value.go:327-350 | The loop over tuple items, with the length check |
| CodecLoops.ValueToJson | bridge/codec/dynamic_value.go:355-439 | The encoder's loops print as specified |
| ArtifactStore.MemoryStore.CreateArtifact | packages/thinking-blocks/src/memory-store.ts:37-62 | Appends one pending artifact with every other field empty, or throws without an identity |
| RunnerLaws.IdsKeepTheirRecords | packages/thinking-blocks/src/memory-store.ts:64-71 | The record under an id keeps its block, version, identity and creation time in every later state; that a lookup finds that record is by construction, ids being positions |
| ArtifactStore.MemoryStore.FindActiveArtifact | packages/thinking-blocks/src/memory-store.ts:73-88 | The first ready artifact of the key, or none when there is none |
| ArtifactStore.MemoryStore.FindLatestNonSuperseded | packages/thinking-blocks/src/memory-store.ts:90-108 | The most recently created artifact of the key that is not superseded, the first of equals |
| ArtifactStore.MemoryStore.ClaimPendingArtifacts | packages/thinking-blocks/src/memory-store.ts:130-153 | Claims pending artifacts of the block, as many as fit the limit or all, none older left waiting (last update, then creation, then position), oldest first; each becomes running without an error and nothing else changes |
| ArtifactStore.MemoryStore.OldestFirst | packages/thinking-blocks/src/memory-store.ts:141-145 | A stable sort by last update then creation |
| ArtifactStore.SortByAgeSorts | packages/thinking-blocks/src/memory-store.ts:141-145 | That sort is strictly ordered, ties in creation position |
| ArtifactStore.RankIsIndex | packages/thinking-blocks/src/memory-store.ts:134-146 | The k-th artifact of the sorted listing has exactly k waiting artifacts ahead of it |
| ArtifactStore.PrefixIsClaim | packages/thinking-blocks/src/memory-store.ts:134-146 | The first limit entries of the listing are exactly those with fewer than limit ahead |
| ArtifactStore.MemoryStore.RequeueRetryable | packages/thinking-blocks/src/memory-store.ts:155-181 | Makes pending, without an error, exactly the failed artifacts of the block (the only status its input type admits) that are old enough, not excluded, and have exactly the given number of runs, and counts them |
| ArtifactStore.MemoryStore.MarkArtifactReady | packages/thinking-blocks/src/memory-store.ts:187-215 | Supersedes exactly the other ready artifacts of the key, lists each once in creation order, then makes the winner ready with the output and without rejection or error; an unknown winner throws after superseding |
| ArtifactStore.MemoryStore.MarkArtifactRejected | packages/thinking-blocks/src/memory-store.ts:217-225 | Makes exactly the named artifact rejected, with the rejection and without an error, or throws and changes nothing |
| ArtifactStore.MemoryStore.MarkArtifactFailed | packages/thinking-blocks/src/memory-store.ts:227-234 | Makes exactly the named artifact failed, with the error, or throws and changes nothing |
| ArtifactStore.MemoryStore.UpdateArtifactPhase | packages/thinking-blocks/src/memory-store.ts:236-250 | Writes and logs a changed phase once, and neither for an equal one |
| ArtifactStore.MemoryStore.DumpArtifacts | packages/thinking-blocks/src/memory-store.ts:252-274 | Supersedes exactly the ready artifacts of the key and lists each once in creation order |
| ArtifactStore.MemoryStore.StartRun | packages/thinking-blocks/src/memory-store.ts:293-297 | Appends one running run |
| ArtifactStore.MemoryStore.FinishRun | packages/thinking-blocks/src/memory-store.ts:299-304 | Closes exactly the named run as a success with its finish record, or throws |
| ArtifactStore.MemoryStore.RejectRun | packages/thinking-blocks/src/memory-store.ts:306-312 | Closes exactly the named run as rejected with reason and rejection, or throws |
| ArtifactStore.MemoryStore.FailRun | packages/thinking-blocks/src/memory-store.ts:314-319 | Closes exactly the named run as failed with its error, or throws |
| ArtifactStore.MemoryStore.CountArtifactRuns | packages/thinking-blocks/src/memory-store.ts:347-349 | The number of runs of the artifact |
| ArtifactStore.CountRunsIsNumber | packages/thinking-blocks/src/memory-store.ts:347-349 | That is how many runs name the artifact |
| RunnerSafety.StepKeepsInv | packages/thinking-blocks/src/thinking-block.ts:633-901 | Every step of every caller, runner, commit, dump, stop and process death keeps the system invariant |
| RunnerSafety.DumpedKeepsInv | packages/thinking-blocks/src/memory-store.ts:252-274 | A dump at any moment keeps the invariant |
| RunnerSafety.RequeueArrivesKeepsInv | packages/thinking-blocks/src/thinking-block.ts:850-864 | A requeue built from an old snapshot of the active set keeps the invariant |
| RunnerSafety.ClaimArrivesKeepsInv | packages/thinking-blocks/src/thinking-block.ts:829-839 | A claim whose budget was computed before it was awaited keeps the invariant |
| RunnerSafety.AdoptKeepsInv | packages/thinking-blocks/src/thinking-block.ts:840-847 | Starting fulfilments for the claimed artifacts keeps the invariant |
| RunnerSafety.RunStartsKeepsInv | packages/thinking-blocks/src/thinking-block.ts:633-659 | Starting a run keeps every artifact within its allowed runs |
| RunnerSafety.ReadyArrivesKeepsInv | packages/thinking-blocks/src/thinking-block.ts:689-739 | A ready commit keeps one ready artifact per key |
| RunnerSafety.RejectedArrivesKeepsInv | packages/thinking-blocks/src/thinking-block.ts:741-774 | A rejection commit keeps the invariant |
| RunnerSafety.FailedArrivesKeepsInv | packages/thinking-blocks/src/thinking-block.ts:776-795 | A failure commit keeps the invariant |
| RunnerSafety.LeaveKeepsInv | packages/thinking-blocks/src/thinking-block.ts:843-846 | Leaving the active set keeps the invariant |
| RunnerSafety.RunnersShrink | packages/thinking-blocks/src/thinking-block.ts:817-901 | A process death loses its runner and all its work, and keeps the invariant |
| RunnerLaws.EveryStateIsSafe | packages/thinking-blocks/src/memory-store.ts:130-274 | In every interleaving: one ready artifact per block, version and identity; one fulfilment per artifact, and that artifact is running; at most three runs per artifact; no active set above its parallelism |
| RunnerLaws.FinalStatusesAreFinal | packages/thinking-blocks/src/memory-store.ts:187-274 | Over any stretch of any run rejected and superseded never change and ready only becomes superseded |
| RunnerCommits.CommitsWrite | packages/thinking-blocks/src/thinking-block.ts:689-795 | A commit is of a running artifact and leaves it ready with the output, rejected with the rejection, or failed with the error |
| RunnerCommits.StatusesMove | packages/thinking-blocks/src/memory-store.ts:130-274 | A status changes only from failed to pending by a requeue, pending to running by a claim of it, running to ready, rejected or failed by its own commit, and ready to superseded by a dump or another commit of its key |
| RunnerCommits.RequeueWrites | packages/thinking-blocks/src/thinking-block.ts:850-864 | A requeue puts back exactly the failed artifacts of the block that were not active when it was sent, are old enough and have had as many runs as the round is for |
| RunnerCommits.RejectionLasts | packages/thinking-blocks/src/thinking-block.ts:741-774 | A refused artifact is rejected for that reason in every later state |
| RunnerCommits.OutputLasts | packages/thinking-blocks/src/thinking-block.ts:689-739 | An accepted artifact is ready at once and keeps its output in every later state |
| RunnerCommits.NoSlotLeaks | packages/thinking-blocks/src/thinking-block.ts:840-847 | In every state the active set is exactly the artifacts of the unfinished fulfilments, one each: every slot taken is given back |
| RunnerCommits.ClaimFillsSlots | packages/thinking-blocks/src/thinking-block.ts:829-839 | A tick asks for as many artifacts as there are free slots, none without one, and its claim fills them all or leaves none of the block pending |
| RunnerLaws.ActiveIsNeverWaiting | packages/thinking-blocks/src/thinking-block.ts:829-864 | With one live runner per block and version, no active artifact is ever pending |
| RunnerLaws.ClaimedIsNeverSkipped | packages/thinking-blocks/src/thinking-block.ts:840-847 | With one live runner per block and version, the check against the active set never skips a claimed artifact |
| RunnerLaws.StepKeepsActiveNotQueued | packages/thinking-blocks/src/thinking-block.ts:850-864 | A step keeps active artifacts out of the queue if and only if it is no requeue of an artifact some runner counts as active |
| RunnerLaws.ActiveStayOutExactly | packages/thinking-blocks/src/thinking-block.ts:829-864 | Up to any point of any run, active artifacts stayed out of the queue if and only if every requeue so far spared them |
| RunnerLaws.LoneRunnersSpare | packages/thinking-blocks/src/thinking-block.ts:850-864 | With one live runner per block and version every requeue spares them |
| TwoRunners.ActiveMayWait | packages/thinking-blocks/src/thinking-block.ts:850-864 | A run from the empty store in which, with two live runners of one block, a requeue makes the other's active artifact pending |
| TwoRunners.ClaimedMayBeSkipped | packages/thinking-blocks/src/thinking-block.ts:840-847 | A run from the empty store to an adoption, with two live runners of one block, that starts nothing on an artifact its runner claimed |
| TwoRunners.SkippedMayBeStranded | packages/thinking-blocks/src/thinking-block.ts:840-847 | That run goes on: the fulfilment that made it active leaves, and the artifact is left running with nobody working on it |
| RunnerLaws.StrandedForEver | packages/thinking-blocks/src/memory-store.ts:155-181 | A running artifact that nobody claimed or works on stays so in every later state: running artifacts are never requeued |
| RunnerProgress.MeasureDecreases | packages/thinking-blocks/src/thinking-block.ts:829-901 | Claims, run starts, settlements, requeues and supersessions strictly decrease the sum over artifacts of (remaining runs, status rank) in lexicographic order; only a creation adds to it |
| RunnerProgress.WorkIsBounded | packages/thinking-blocks/src/thinking-block.ts:829-901 | A whole run does at most 21 such steps per artifact ever created |
| RunnerProgress.QueueNeverGrows | packages/thinking-blocks/src/memory-store.ts:130-181 | Under a strictly increasing clock the set of waiting artifacts ahead of a given one never grows |
| RunnerProgress.QueueShrinks | packages/thinking-blocks/src/memory-store.ts:130-153 | Every non-empty claim of the block that leaves an artifact waiting shrinks the queue ahead of it |
| RunnerProgress.NoStarvation | packages/thinking-blocks/src/memory-store.ts:130-181 | While an artifact waits, its block sees at most as many non-empty claims as there were artifacts ahead of it |
| Attempts.GenerateOnce | packages/thinking-blocks/src/thinking-block.ts:1129-1238 | Records each reported step, then records a throw as an error call and rethrows |
| Attempts.RunModelValidation | packages/thinking-blocks/src/thinking-block.ts:1086-1127 | Prepares, calls and interprets a judge |
| Attempts.ValidateOutput | packages/thinking-blocks/src/thinking-block.ts:1040-1084 | Runs validators in order and stops at the first failure |
| Attempts.RunAttempts | packages/thinking-blocks/src/thinking-block.ts:942-1015 | The attempt loop computes the run the laws speak of, for every agent and validator behaviour |
| Attempts.ModelCallsAreNumbered | packages/thinking-blocks/src/thinking-block.ts:960-992 | The model calls a run records are numbered 0 to n-1 across attempts, judges and errors |
| Attempts.RunShows | packages/thinking-blocks/src/thinking-block.ts:942-1015 | Success is with the first output all validators pass; refusal exactly when every allowed attempt failed; each attempt is prepared with the previous one's first failing feedback; the log shows exactly that |
| AttemptsTrace.MaximumExactly | packages/thinking-blocks/src/thinking-block.ts:1032-1038 | The maximum is the run's, else the block's, else 3, and less than one throws |
| AttemptsTrace.RunIsJustified | packages/thinking-blocks/src/thinking-block.ts:942-1127 | Every output and verdict in the log is what the agent or validator answered at that point about the latest output; a run fails only if its maximum is less than one or what it asked last threw |
| StableStringify.ParsePrint | packages/thinking-blocks/src/hash.ts:3-13 | Parsing a printed value followed by anything that cannot extend it gives the value, key order forgotten, and the rest |
| StableStringify.PrintIsCanonical | packages/thinking-blocks/src/hash.ts:3-13 | Two JSON values print the same if and only if they are equal with objects as unordered maps |
| StableStringify.SameMeaningSamePrint | packages/thinking-blocks/src/hash.ts:3-13 | Key order never shows in the print |
| StableStringify.SortKeysSorts | packages/thinking-blocks/src/hash.ts:8-11 | Keys are printed in strictly ascending order of their UTF-16 units |
| StableStringify.QuotedParses | packages/thinking-blocks/src/hash.ts:4-6 | A quoted string, escapes and lone surrogates included, reads back as itself (section 7 of RFC 8259) |
| StableText.QuoteExactly | packages/thinking-blocks/src/hash.ts:4-6 | The quoted text unit by unit: which are escaped by two characters, which by number, and that the others and surrogate pairs stand as they are |
| StableText.PrintsExactly | packages/thinking-blocks/src/hash.ts:3-13 | The printed text of every value: no white space, commas between, members by ascending key |
| Order.LessExactly | packages/thinking-blocks/src/hash.ts:8-9 | The order of keys: at the first difference the smaller unit, or the shorter of two that do not differ |
| TopoSort.BuildIndex | bridge/cmd/gen-wire/main.go:219-222 | The last struct of a name wins |
| TopoSort.IndexIsLast | bridge/cmd/gen-wire/main.go:219-222 | Every struct is found under its name, the last of a name being the one found |
| TopoSort.Sorter.Visit | bridge/cmd/gen-wire/main.go:227-247 | The recursive closure terminates on any graph and lists each position after everything it needs, unless that is still being visited |
| TopoSort.Sorter.VisitAll | bridge/cmd/gen-wire/main.go:234-245 | The loops over embedded and field dependencies leave every known dependency visited |
| TopoSort.Sort | bridge/cmd/gen-wire/main.go:217-258 | On every graph the result is a permutation of the input; every dependency comes before its user if and only if the graph is acyclic; a struct moves ahead of one listed before it only where that one, or one still earlier, needs it |
| TopoSort.RespectsIffAcyclic | bridge/cmd/gen-wire/main.go:214-217 | A listing where only cyclic dependencies may come late puts all dependencies first exactly on acyclic graphs |
| TopoSort.SortedStays | bridge/cmd/gen-wire/main.go:214-217 | So structs already in order stay as they are |
| Pool.StepKeepsInv | bridge/provider/pool.go:59-172 | Every step of Get, its single flight, process death, eviction, failed configure and shutdown keeps the pool invariant |
| Pool.ConfigureFailsKeepsInv | bridge/provider/pool.go:105-108 | A failed configure stops the process it launched, leaving no orphan |
| Pool.StoreKeepsInv | bridge/provider/pool.go:112-116 | Evicting and publishing under one lock keeps the size bound and one live instance per key |
| Pool.PoolIsSafe | bridge/provider/pool.go:59-172 | In every interleaving: at most maxSize instances, one live unstopped instance per key, and each one is in the map or in its key's flight |
| PoolRecency.StampIsLastUse | bridge/provider/pool.go:59-116 | In every run the stamp on an instance is the time of the last event that used it: a hit, the end of its configuration, or a call |
| PoolRecency.EvictsLeastRecentlyUsed | bridge/provider/pool.go:155-172 | In every run the instance a full pool gives up is stopped, and every other pooled one was used later in the history of events |
| Pool.ProviderPool.LookUp | bridge/provider/pool.go:65-76 | The fast path is the model's step: a live instance is touched and returned, a dead one removed and killed |
| Pool.ProviderPool.LeastRecentlyUsedKey | bridge/provider/pool.go:159-166 | The scan, in any map order, finds a key no other instance was used before |
| Pool.ProviderPool.EvictIfNeeded | bridge/provider/pool.go:155-172 | Evicts nothing while there is room, and otherwise an instance of least last use |
| Pool.ProviderPool.Put | bridge/provider/pool.go:112-116 | Making room and publishing is the model's step |
| Pool.ProviderPool.Shutdown | bridge/provider/pool.go:127-151 | Every pooled instance, and no other, is stopped and the map is empty |
| SchemaDto.NamesParseBack | bridge/schema/dto.go:524-604 | Every nesting and string kind survives its name |
| SchemaDto.BlockPersists | bridge/schema/dto.go:283-381 | On disk every part of a block stands in its place and order under its own name, modes by their protocol names, at every depth |
| SchemaDto.AttributeRoundTrip | bridge/schema/dto.go:313-455 | An attribute, nested types included, survives persisting and reading |
| SchemaDto.BlockRoundTrip | bridge/schema/dto.go:283-490 | A block with its attributes and nested blocks survives persisting and reading |
| SchemaDto.SchemaRoundTrip | bridge/schema/dto.go:272-490 | Reading a persisted schema back succeeds and gives the provider's own schema |
| SchemaDtoLoops.SchemaFromTf | bridge/schema/dto.go:272-281 | The appending loops persist as specified |
| SchemaDtoLoops.BlockFromTf | bridge/schema/dto.go:283-311 | Same, for a block |
| SchemaDtoLoops.AttributeFromTf | bridge/schema/dto.go:313-346 | Same, for an attribute |
| SchemaDtoLoops.ObjectFromTf | bridge/schema/dto.go:348-364 | Same, for a nested object |
| SchemaDtoLoops.NestedFromTf | bridge/schema/dto.go:366-381 | Same, for a nested block |
| SchemaDtoLoops.SchemaToTf | bridge/schema/dto.go:383-392 | The reading loops rebuild as specified, failing exactly when some part is unreadable |
| SchemaDtoLoops.BlockToTf | bridge/schema/dto.go:394-422 | Same, for a block |
| SchemaDtoLoops.AttributeToTf | bridge/schema/dto.go:424-455 | Same, for an attribute |
| SchemaDtoLoops.ObjectToTf | bridge/schema/dto.go:457-473 | Same, for a nested object |
| SchemaDtoLoops.NestedToTf | bridge/schema/dto.go:475-490 | Same, for a nested block |
| SchemaCache.PathsAreDistinct | bridge/schema/dto.go:147-159 | Different types never share a file, nor with the provider's own files or the manifest |
| SchemaCache.PathsAre | bridge/schema/dto.go:147-159 | Where each kind keeps a type's file, and exactly which names have none |
| SchemaCache.ManifestEntries | bridge/schema/dto.go:181-193 | In any map order the manifest lists every type once, with its path, sorted |
| SchemaCache.Staging.WriteShard | bridge/schema/write.go:80-89 | Writes the shard of exactly that kind and type |
| SchemaCache.Staging.WriteTypes | bridge/schema/write.go:75-104 | In any map order every type's file holds its shard and other files stay; fails exactly on a bad type name |
| SchemaCache.Staging.WriteCacheContents | bridge/schema/write.go:41-107 | Fails exactly when a type name is no file name; otherwise the directory is a complete cache with the manifest written last |
| SchemaCache.ManifestComesLast | bridge/schema/write.go:106 | Until the last write there is no manifest |
| SchemaCache.FindPath | bridge/schema/service.go:283-295 | The path of the first entry of the type, or nothing |
| SchemaCache.ReadTypeShard | bridge/schema/service.go:275-326 | In a complete cache any kind and type gives that type's shard, an unknown type not-found, an unknown kind an error |
| SchemaCache.CachedTypeAgrees | bridge/schema/projection.go:19-25 | A cached schema compiles to the very codec type of the provider's original |
| SchemaCache.CacheAgrees | bridge/schema/write.go:13-39 | Write, look up, compile: the codec type equals the live schema's for every type, and an unknown type is not found |
| CachePublish.StepKeepsInv | bridge/schema/write.go:13-137 | Every file write, rename, removal and crash of any number of writers keeps the invariant |
| CachePublish.PublishedIsComplete | bridge/schema/write.go:109-137 | At every step of every run the published directory is absent or one writer's whole cache, with a shard of the right kind and type behind every manifest entry |
| CacheRestore.PublishedStays | bridge/schema/write.go:109-137 | Once published there is a cache at every later step but for the moment of a swap, as long as no writer crashes in a swap and no system call fails when the old cache is put back |
| CacheRestore.RestoresTheSame | bridge/schema/write.go:127-131 | A publish that fails puts back the very cache it moved aside |
| CacheRestore.PublishesOwn | bridge/schema/write.go:109-137 | A publish that succeeds leaves the writer's own whole cache |
| TypeSearch.SumTokenMatches | bridge/schema/service.go:406-431 | The nested loops with their breaks score as specified |
| TypeSearch.CheckAllTokensMatch | bridge/schema/service.go:385-392 | True exactly when every query token matches some candidate |
| TypeSearch.CheckTokenSuffix | bridge/schema/service.go:394-404 | True exactly when the query tokens are the trailing name tokens |
| TypeSearchScores.TokensExactly | bridge/schema/service.go:433-437 | The tokens of a text are exactly the maximal runs of letters and digits of its lower-case form |
| TypeSearchScores.CutsAtFirst | bridge/schema/service.go:372 | The provider prefix ends at the first underscore |
| TypeSearchScores.CandidateScoreExactly | bridge/schema/service.go:411-422 | 140 exactly for the token itself, 90 exactly for a longer word that starts with it, 45 exactly for one that has it only further in, 0 exactly for one that does not have it |
| TypeSearchScores.FirstMatchDecides | bridge/schema/service.go:408-427 | The first word that has the query token alone decides its score |
| TypeSearchScores.ScoreExactly | bridge/schema/service.go:353-383 | The score of any type by where the query tokens are: its name, all after its provider prefix, its last tokens, each in some name token, each in some token of name or text, or not |
| TypeSearchScores.JoinAppends | bridge/schema/service.go:368 | The query tokens are joined with one underscore between each two |
| TypeSearchScores.PrefixRanksAbove | bridge/schema/service.go:353-431 | Of two types a one-token query finds inside their names, the one whose first matching word starts with it ranks above the one whose first has it further in |
| TypeSearch.ScoreInBand | bridge/schema/service.go:353-383 | The score of n query tokens in its tier: 5000, 4500, 4000, or 3000 or 1000 plus 45n to 140n |
| TypeSearch.TiersNeverOverlap | bridge/schema/service.go:353-383 | For at most seven tokens a better tier always scores higher |
| TypeSearch.TiersOverlapExactly | bridge/schema/service.go:353-383 | A worse tier can outscore a better one for queries of n tokens if and only if n is at least 8 |
| TypeSearch.LongQueryMayOverlap | bridge/schema/service.go:353-383 | For every n from 8 on, two names and a query of n tokens where a match of any name tokens outscores a match of the trailing ones |
| TypeSearch.AddAllKeepsBest | bridge/schema/service.go:128-144 | Deduplication keeps one candidate per matching type with its best score and the kinds it was found under |
| TypeSearch.AddEntries | bridge/schema/service.go:128-144 | The loop filling the candidate map computes that |
| TypeSearch.FoundExactly | bridge/schema/service.go:128-150 | A type is found if and only if it matches in a kind that was asked for, with its best score there, and under exactly the kinds it matches in |
| TypeSearch.Collect | bridge/schema/service.go:122-150 | The candidate map the search fills is the one FoundExactly speaks of, keyed by type |
| TypeSearch.RankingIsUnique | bridge/schema/service.go:156-161 | The order is strict and total on deduplicated types, so there is only one ranking |
| TypeSearch.Rank | bridge/schema/service.go:152-161 | Whatever order the map yields, the sorted list is that ranking |
| TypeSearch.PageIsSlice | bridge/schema/service.go:162-170 | A page exists if and only if offset plus limit does not overflow, and then it is the next limit entries, truncated exactly when more remain |
| TypeSearch.PagesTile | bridge/schema/service.go:162-170 | Consecutive pages tile the ranked list and the last is the first not truncated |
| TypeSearch.SearchTypes | bridge/schema/service.go:101-183 | The response is a page of the one ranking, independent of map order: 25 hits or up to 100 as asked, from the offset, with their kinds and whether more remain; it panics exactly on overflow |
| ResourceApply.Apply | bridge/handler/resource_apply.go:134-173 | One apply and its reply, for every provider |
| ResourceApply.ApplyReplace | bridge/handler/resource_apply.go:178-284 | Plan, destroy, plan, create with its early returns |
| ResourceApply.Serve | bridge/handler/resource_apply.go:28-132 | The whole handler after encoding, as a trace of provider calls and a reply |
| ResourceApplyLaws.StaleAppliesNothing | bridge/handler/resource_apply.go:95-116 | A stale plan is reported if and only if the re-plan diverges, and then nothing is applied |
| ResourceApplyReplies.StaleExactly | bridge/internal/staleplan/staleplan.go:25-96 | Stale exactly unless a delete still deletes an object, a replace still replaces one, and an update still updates one without replacing it or has nothing left to do |
| ResourceApplyReplies.ReplySaysWhatHappened | bridge/handler/resource_apply.go:28-284 | The reply carries the decoded new state and private bytes of the last apply and the diagnostics of all applies in order, exactly when the run ended so; failed, diagnosed and undecodable replies likewise; and every call is sent the states, configuration and private bytes it should be |
| ResourceApplyLaws.CreateFollowsCleanDestroy | bridge/handler/resource_apply.go:196-271 | A second apply happens only in a replacement: the first was of the object just read, as planned from a null proposal, without a fatal diagnostic; the second creates from null as planned |
| ResourceApplyLaws.ReplacesExactly | bridge/handler/resource_apply.go:105-127 | Destroy-then-create runs if and only if an undiverged re-plan asks for replacement; it was stored if and only if the object read and the one re-planned both exist; a stored replace is never applied any other way |
| ResourceApplyLaws.OnlyReplaceDestroysAndCreates | bridge/handler/resource_apply.go:118-127 | So a provider that asks to replace only objects by objects has only stored replaces replaced |
| ResourceApplyLaws.DeleteMayReplace | bridge/handler/resource_apply.go:118-127 | Without that condition a stored delete can become destroy-then-create |
| ResourceApplyLaws.SingleApplyKeepsAction | bridge/internal/staleplan/staleplan.go:25-82 | Otherwise the single apply has the stored action's null-ness, or a stored update has become a no-op |
| ResourceApplyLaws.CodecEncodesNullness | bridge/codec/dynamic_value.go:18-37 | At a compiled resource schema the codec encodes null exactly for an absent or null payload, which the apply laws ask of the encoder |
| ResourceApplyLaws.JsonIsNeverNull | bridge/internal/staleplan/staleplan.go:82-97 | A value carried as JSON, the text null included, is not taken for null |
| ResourceApplyLaws.TwoLiveExactly | bridge/handler/resource_apply.go:178-284 | Two objects can be live at some point of a run exactly when it ran a replacement to its end though the destroy plan leaves an object and the create plan makes one |
| ResourceApplyLaws.NeverTwoLive | bridge/handler/resource_apply.go:178-284 | Never, at any point of any run, for a provider that plans destroys |
| ResourceApplyLaws.DestroyMayLeaveObject | bridge/handler/resource_apply.go:197-231 | A provider that plans an update where a destroy was proposed ends with two |
| FieldTree.BuildObjectTypeChildren | packages/provider/src/field-tree.ts:180-201 | The recursive pushing loop builds the specified children |
| FieldTree.BuildAttributeNode | packages/provider/src/field-tree.ts:208-234 | Builds the specified attribute node |
| FieldTree.BuildNestedBlockNode | packages/provider/src/field-tree.ts:236-256 | Builds the specified block node |
| FieldTree.BuildBlockFields | packages/provider/src/field-tree.ts:258-271 | Attributes first, then blocks, in entry order |
| FieldTree.BuildResourceReferenceFields | packages/provider/src/field-tree.ts:322-324 | First occurrences of the handles, in order |
| FieldMeaning.ShapeExactly | packages/provider/src/field-tree.ts:166-178 | A type has members exactly when it is an object behind any number of lists, sets and maps |
| FieldMeaning.TreeShowsSchema | packages/provider/src/field-tree.ts:180-271 | The tree shows every attribute, object member and block in its place with its path, type, flags and limits, and nothing else; object members are optional and inherit computed and sensitive |
| FieldMeaning.HandlesExactly | packages/provider/src/field-tree.ts:288-324 | A path is a handle exactly when its field is a repeatable block or an attribute neither secret nor an object, with no other such field above it |
| FieldTreeLaws.FieldPathsAreDistinct | packages/provider/src/field-tree.ts:326-331 | For dot-free, sibling-distinct names whose unnamed root fields are leaves, flattened paths are pairwise distinct |
| FieldTreeLaws.DistinctExactly | packages/provider/src/field-tree.ts:93-95 | For dot-free, sibling-distinct names, paths are distinct if and only if the root names and the names hoisted by unnamed root fields are |
| FieldTreeLaws.PathsFollowTheTreeExactly | packages/provider/src/field-tree.ts:93-95 | Path prefix, segment by segment, means descent for all fields if and only if no unnamed root field has anything below it |
| FieldTreeLaws.PrefixIsDescent | packages/provider/src/field-tree.ts:180-271 | One field's path is a prefix of another's exactly when it is above it in the tree |
| FieldTreeLaws.HandlesAreIndependent | packages/provider/src/field-tree.ts:302-324 | No handle is above another, every handle is a field of the tree, and de-duplication drops nothing |
| FieldTreeLaws.ExactlyOneHandle | packages/provider/src/field-tree.ts:302-324 | Every collection block, and every attribute neither secret nor an object, lies at or below exactly one handle |
| FieldTreeLaws.HandlesAreTopmost | packages/provider/src/field-tree.ts:302-324 | The handles are exactly the referenceable fields with no other referenceable field above them |
| FieldTreeLaws.SecretsOnlyInCollections | packages/provider/src/field-tree.ts:302-318 | A handle that reaches a sensitive attribute is a whole collection block |
| FieldTreeLaws.EmptyNameCollides | packages/provider/src/field-tree.ts:93-95 | A block with an empty name at the root makes two fields share a path |
| FieldTreeLaws.DottedNameCollides | packages/provider/src/field-tree.ts:93-95 | A dotted name makes two fields share a path |

## Left out

Codec:

- JSON syntax, white space, string escapes and UTF-8 validity: a JSON text is its parsed tree, a later duplicate key winning, a number literal a real.
- The `big.Float` exponent range, and msgpack, type signatures and SHA-256, which are library code and treated as exact.
- Numbers.Literal: which of several shortest decimals `big.Float` picks is library code, the nearer one here. The precision of a number is whatever the value carries: 64 for parsed JSON, and for a provider's values what msgpack decoding gives (53 for a float64).
- Block nesting `Invalid` and nil list entries, which the compiler dereferences (`Codec.Complete`).
- `IdentityDynamicValue` and identity schemas.

Store, runner and attempts:

- Artifact and run ids are positions and records are values: the store returns copies, so a method here returns the id where the source returns the record.
- Closing a run is not a step of the runner; queued run options, completions, waiters, timers and the length of the back-off are not modelled: a requeue may come at any time with any cut-off.
- RunnerLaws.EveryStateIsSafe: does not say that every running artifact leaves that state, because a commit or a parse that throws bypasses the failure commit and running artifacts are never requeued; `Abandon` is that step.
- RunnerLaws.ActiveIsNeverWaiting and the rest do not claim unique pending artifacts per identity, which a race between lookup and creation breaks.
- Attempts.RunAttempts: a block's maximum is an integer, step callbacks arrive in sequence, and the store does not throw.

Printing and ordering:

- `undefined`, NaN and negative zero, and the hash over the printed text.
- `collectAllFields` and code emission in `gen-wire`.

Pool and cache:

- `poolKey` and `canonicalJSON`: a key is an opaque non-empty string.
- Pool.PoolIsSafe: an instance counts as live until its stop is issued, because the code stops evicted instances in the background; two processes may overlap while one is stopping.
- Temporary and backup names are unique; a rename over an existing directory fails; no write is reordered by a power failure (the code does not sync).
- Identity data in shards, search text, diagnostics and capabilities in the manifest; `Ensure` and the extractor process.

Search, apply and field tree:

- Strings are ASCII for lower-casing and trimming.
- Encoding of the request, schema lookup, contexts and time limits; provider calls either fail or answer.
- Fatal diagnostics of a re-plan, which the handler does not inspect outside a replacement.
- ResourceApplyLaws.NeverTwoLive: counts the objects the provider's own states speak of, an apply from null adding one even when it fails and an apply to null removing one only without a fatal diagnostic.
- Descriptions and deprecation texts of fields; `fieldFacts` and `fieldCtyType`, which are short projections.

Everything else in the repository (process launch, gRPC, generated code, the bridge client, HTTP routes, UI) is not part of this model.
