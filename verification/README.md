# Verified model of rann-agent's stateful core

This project models the parts of rann-agent whose behaviour spans calls, and proves what they keep.
One file models one component; each source object is a class whose methods are proved against
functions on its abstract value, and the results are lemmas about those functions.

| file | component |
|---|---|
| `AgentRegistry.dfy` | the forest of agents, its cascading deregistration, and the lock that cascade waits for |
| `VersionVectors.dfy` | version vectors and the protocol between replicas |
| `SharedContext.dfy` | the shared store: versions, expiry, compare-and-set, memory against disk, and its refinement of the vector protocol |
| `ContextCluster.dfy` | several contexts exchanging vectors, and what `happened_before` says of their creations |
| `SharedFile.dfy` | several contexts writing one file |
| `TaskDecomposer.dfy` | task splitting, its cache, and layering by dependencies |
| `MemoryCache.dfy` | the bounded cache against a map that never runs out of room |
| `RateLimiter.dfy` | sliding-window rate limiting against the full history |
| `ContextTrim.dfy` | trimming a conversation to a token budget |
| `RollbackEngine.dfy` | snapshots, rollback, failures and retries over a file system |
| `StateMachine.dfy`, `Lifecycle.dfy` | the transition table, its history and file, and `run()` |
| `ExecutionLoop.dfy` | the execution loop under its six budgets |
| `ShellQuoting.dfy` | argument quoting against the POSIX shell's token recognition |
| `Prelude.dfy` | optional values, Python lists and insertion-ordered dictionaries |

Clocks are numbers passed to each operation; new uuids are parameters with the freshness they need;
JSON and disk contents are values; model responses, tool results, file-operation failures, regular
expressions and keyword tables are parameters that range over everything.

## What the code does that its documentation does not say

Each of these is a lemma; where an intended property fails, the exact condition under which it holds
is proved.

- `register_with_id` keeps the forest exactly when nobody names the id as parent, it is not its own
  parent, and an id registered before has no registered parent and moves only under an earlier agent
  (`RegisterKeepsForestIff`).
- `deregister` awaits itself while it holds its lock, so as written it returns exactly when the id is
  unknown or lists nobody but itself; otherwise it never returns, removes nobody and keeps the lock,
  and no later request is served (`ReturnsIff`, `ParentNeverReturns`, `LockFreeIff`). The other
  results about the cascade are about the body of its critical section.
- After an unchecked `register_with_id` a removed id can stay on the list of an agent that stays:
  exactly when it was listed there more often than its removal takes it off (`StaleIff`,
  `StaleAfterMove`).
- Two `set_if_version` calls with the same expected version can both succeed within one lifetime,
  exactly when the first overwrote an expired entry nobody had read since and the context's create
  count was still below the expected version (`SecondWinnerIff`, `TwoWinners`). The test also looks at
  expired entries, so it disagrees with `version_for` there (`CasMatchesReaderIff`).
- Contexts with the default path share one file, which each writes from its own memory: after any run
  the file shows what the last writer shows, so it shows another context's live entries exactly when
  that one shows the same (`FileShowsLastWriter`), and a write drops other contexts' keys
  (`SecondWriterDropsKey`).
- A decomposition is cached under the first 100 characters, so a longer task gets the answer of the
  first task that shares them (`CachedAnswer`, `LongTasksShareAnswers`); the cache changes no answer
  exactly when that first task is the task itself (`CacheIsInvisibleIff`).
- A full cache loses live entries, and a stored `None` exists only until the first `get`, which drops
  it. `get` differs from a map that never runs out of room exactly on live values popped among the
  oldest keys since they were set, and `exists` exactly there and on stored `None`s that were read
  (`GetMatchesIdealIff`, `ExistsMatchesIdealIff`, `SecondSetLosesFirst`, `StoredNoneIsDropped`).
- If window lengths vary between calls for one key, pruning forgets requests: exactly those accepted
  ones, newer than the present cutoff, that some later cutoff had reached (`ShrinkingWindowForgets`,
  `CountsAgreeIff`).
- A conversation that is over budget comes back longer exactly when it has at most ten messages and a
  system message, which is then kept twice (`FallbackGrows`). A late system message is kept twice
  exactly when it is among the last ten or fits together with everything after it (`RepeatsIff`,
  `LateSystemRepeats`). The kept middle is newest first.
- Rollback deletes a file that could not be read when it was recorded, and loses carriage returns
  (`RecordedOnceRestoresIff`); with a path recorded twice a retry can end at the older snapshot, and
  the statuses left by the first execution tell exactly when (`RetryOrderMatters`, `RetryRestoresIff`);
  after more of them the statuses and the file tell (`ExecutionRestoresIff`).
- CANCELLED cannot be reached from QUEUED (`ReachableIff`); a checkpoint taken while VERIFYING raises
  and leaves the machine RECOVERING (`CheckpointFromVerifying`); a failed `load` can change the state
  without the history (`FailedLoadChangesIff`), from a file that no such machine wrote (`HalfLoaded`).
- A finished execution loop reports one turn less than it recorded (`LoopBounds`). Once the clock is
  past the warning threshold (four fifths of the time by default), recording a model call or a turn
  raises, so the loop ends although no budget is exhausted (`WarningEndsIff`,
  `AnswerPastThresholdRaises`).

## Model

| member | source | states |
|---|---|---|
| Agents.AgentRegistry.RegisterWithId | rann_agent/orchestration/agent_registry.py:141-164 | a new record replaces whatever had the id and joins its parent's list when the parent is registered; nothing else changes |
| Agents.AgentRegistry.RegisterAgent | rann_agent/orchestration/agent_registry.py:113-139 | with a new uuid, registration turns a forest into a forest |
| Agents.AgentRegistry.Link | rann_agent/orchestration/agent_registry.py:134-136 | the id is appended to the list of a registered, non-empty parent id, and only there |
| Agents.AgentRegistry.Detach | rann_agent/orchestration/agent_registry.py:172-177 | the agent leaves its parent's list and no other record changes |
| Agents.AgentRegistry.DeregisterChildren | rann_agent/orchestration/agent_registry.py:179-181 | walking a copy of the list cuts exactly what the children reach, although each child edits the list and may be gone before its turn; the measure is the set of agents reached |
| Agents.AgentRegistry.Deregister | rann_agent/orchestration/agent_registry.py:166-193 | the body of the critical section, on every registry that registrations can make, checked or not: it ends, removes exactly the agents that child lists reach from the id, takes each off its parent's list once, and keeps the other records' objects; on sound lists that is the subtree; an unknown id changes nothing |
| Agents.AgentRegistry.DeregisterAsWritten | rann_agent/orchestration/agent_registry.py:166-193 | the same call with its lock: what it leaves, and that it never returns, as the function on values says |
| Agents.AgentRegistry.AwaitChildren | rann_agent/orchestration/agent_registry.py:179-181 | awaiting each child with the lock held |
| Agents.ReturnsIff | rann_agent/orchestration/agent_registry.py:168-181 | with the lock, the call returns if and only if the id is unknown or lists nobody but itself; if so it has done what the critical section is to do, else it has only left its parent's list and keeps the lock |
| Agents.ParentNeverReturns | rann_agent/orchestration/agent_registry.py:168-181 | a parent and its child: the call for the parent never returns and removes nobody |
| Agents.LockFreeIff | rann_agent/orchestration/agent_registry.py:113-193 | over every run of requests the lock is free in the end if and only if nobody listing others was deregistered, and then the run did what it does without the lock |
| Agents.CutIsCascade | rann_agent/orchestration/agent_registry.py:172-192 | detaching an agent, cutting at its remaining children and deleting its entry is cutting at the agent; it is never reached from its own children |
| Agents.CutTwice | rann_agent/orchestration/agent_registry.py:179-181 | cutting in two rounds is cutting at once, list contents and order included |
| Agents.CutIsPruned | rann_agent/orchestration/agent_registry.py:166-193 | on sound lists the cut is the registry without the whole subtree |
| Agents.StaleIff | rann_agent/orchestration/agent_registry.py:172-177 | a removed id stays on a staying agent's list if and only if it was listed there more often than once by its parent, or at all by another |
| Agents.StaleAfterMove | rann_agent/orchestration/agent_registry.py:172-177 | registered under p, then again under q, then deregistered, an agent is still on the list of p |
| Agents.ReachableIsOrderly | rann_agent/orchestration/agent_registry.py:141-193 | every registry reached by any registrations and deregistrations has the order under which the cascade ends |
| Agents.EncodingsAgree | rann_agent/orchestration/agent_registry.py:113-193 | in a forest, being listed by p is being listed exactly once, is being registered with parent p, and then p was registered first |
| Agents.RegisterKeepsForestIff | rann_agent/orchestration/agent_registry.py:141-164 | registering keeps the forest if and only if a check the caller can make beforehand passes |
| Agents.UnderIffDescent | rann_agent/orchestration/agent_registry.py:179-181 | climbing parent links and following child lists downwards give the same descendants |
| Agents.ChildStep | rann_agent/orchestration/agent_registry.py:180-181 | removing the first child's subtree removes one list entry, shrinks the subtree strictly, and leaves the final result unchanged |
| Agents.PruneKeepsForest | rann_agent/orchestration/agent_registry.py:166-193 | deregistration turns a forest into a forest |
| Agents.ReachableIsForest | rann_agent/orchestration/agent_registry.py:113-193 | every registry reached by checked registrations and any deregistrations is a forest |
| VersionVectors.VersionVector.Increment | rann_agent/orchestration/shared_context.py:78-79 | one component rises by one |
| VersionVectors.VersionVector.Merge | rann_agent/orchestration/shared_context.py:84-86 | visiting the other vector's items in any order gives the pointwise maximum, also when merging with itself |
| VersionVectors.VersionVector.Precedes | rann_agent/orchestration/shared_context.py:88-98 | true exactly when every component is at most the other's and some component is less |
| VersionVectors.VersionVector.Copy | rann_agent/orchestration/shared_context.py:100-105 | a new object with the same clock |
| VersionVectors.MergeIsLub | rann_agent/orchestration/shared_context.py:84-86 | merge is the least upper bound |
| VersionVectors.HappenedBeforeIsStrictOrder | rann_agent/orchestration/shared_context.py:88-98 | irreflexive, transitive and asymmetric |
| VersionVectors.ReachableInv | rann_agent/orchestration/shared_context.py:236-248 | over every run of creations, copies, merges (copies lost, repeated or late) and starts, each vector digests exactly the creations it has heard of |
| VersionVectors.VectorsAreExactDigests | rann_agent/orchestration/shared_context.py:72-101 | in every reachable system happened_before is strict inclusion of the creations heard of, and pointwise order is inclusion |
| VersionVectors.MergeIsUnion | rann_agent/orchestration/shared_context.py:374-380 | merging a copy hears the union, is idempotent, and stays below every vector that has heard of both |
| SharedStore.SharedContext.constructor | rann_agent/orchestration/shared_context.py:402-415 | a new context holds exactly the file's entries that have not expired, and its vector |
| SharedStore.SharedContext.LoadEntries | rann_agent/orchestration/shared_context.py:408-411 | the loading loop keeps exactly the unexpired entries |
| SharedStore.SharedContext.Persist | rann_agent/orchestration/shared_context.py:384-398 | the file then holds exactly the unexpired entries and the vector, and memory is unchanged |
| SharedStore.SharedContext.Put | rann_agent/orchestration/shared_context.py:211-253 | an update of a live entry raises its version by one and keeps creation time and access count; otherwise a creation counted in the vector, whose count is the new version; then the file is written |
| SharedStore.SharedContext.PutIfVersion | rann_agent/orchestration/shared_context.py:255-275 | succeeds exactly on the present version (0 for a missing key), expired or not, and else changes nothing |
| SharedStore.SharedContext.ReplaceTags | rann_agent/orchestration/shared_context.py:277-285 | succeeds exactly on a live entry, replaces its tags and counts an access |
| SharedStore.SharedContext.Refresh | rann_agent/orchestration/shared_context.py:287-296 | succeeds exactly on a live entry, restarting its time to live |
| SharedStore.SharedContext.Remove | rann_agent/orchestration/shared_context.py:298-304 | the key goes; the file is written only if it was there |
| SharedStore.SharedContext.DeleteMany | rann_agent/orchestration/shared_context.py:306-315 | exactly the listed keys go, repeated or missing ones included, and the count is how many were there |
| SharedStore.SharedContext.ClearOwned | rann_agent/orchestration/shared_context.py:317-332 | exactly the owner's entries (or all) go, and the count is their number |
| SharedStore.SharedContext.DropOwned | rann_agent/orchestration/shared_context.py:322-329 | exactly the owner's entries (or all) leave memory, and the count is zero only if there were none |
| SharedStore.SharedContext.DropEach | rann_agent/orchestration/shared_context.py:328-329 | the loop deletes exactly the given keys |
| SharedStore.SharedContext.AtomicPut | rann_agent/orchestration/shared_context.py:336-370 | every item is written in order, then the file once |
| SharedStore.SharedContext.PutItem | rann_agent/orchestration/shared_context.py:344-367 | one item: a live entry's version rises by one, a new one starts at 1 and leaves the vector alone |
| SharedStore.SharedContext.Lookup | rann_agent/orchestration/shared_context.py:147-156 | the value of a live entry; an expired one is dropped from memory only |
| SharedStore.SharedContext.VersionFor | rann_agent/orchestration/shared_context.py:202-207 | the version of a live entry, none otherwise |
| SharedStore.SharedContext.GetVersionVector | rann_agent/orchestration/shared_context.py:374-376 | a fresh copy of the vector |
| SharedStore.SharedContext.MergeVersionVector | rann_agent/orchestration/shared_context.py:378-380 | the vector becomes the merge and nothing else changes |
| SharedStore.ApplyKeepsSync | rann_agent/orchestration/shared_context.py:147-415 | every operation keeps memory and file showing the same live entries, and the file's vector at most the context's |
| SharedStore.ReloadAgrees | rann_agent/orchestration/shared_context.py:402-415 | after any run from any file, a context opened on the file shows the same live entries, now and at every later time, and its vector has heard of nothing more |
| SharedStore.VersionStep | rann_agent/orchestration/shared_context.py:211-370 | while a key stays alive each write raises its version by exactly one and sets its value, and nothing else changes either, restarts included |
| SharedStore.LifetimeIsExact | rann_agent/orchestration/shared_context.py:147-415 | at the end of any lifetime the key holds the last value written and its version has risen by exactly the number of writes |
| SharedStore.WrittenLifetimeIsExact | rann_agent/orchestration/shared_context.py:147-415 | the same from any write on, the one that creates the key included |
| SharedStore.ReadersSeeItems | rann_agent/orchestration/shared_context.py:147-415 | after any run from any file and at any later time, whether a key is live, and its value, times, deadline, owner and tags, are what the operations make of a plain map of items with deadlines: writes, tag changes, touches, removals by key and by owner; versions, caching, lazy expiry, restarts and the file are invisible |
| SharedStore.SetIsReadable | rann_agent/orchestration/shared_context.py:211-253 | a set gives its value until its time to live, or the default, has passed, and leaves other keys alone |
| SharedStore.TouchProlongs | rann_agent/orchestration/shared_context.py:287-296 | a touched entry lives its time to live from the touch on |
| SharedStore.CreatedVersion | rann_agent/orchestration/shared_context.py:236-241 | a key that is not live is created at the context's number of creations through set, at 1 through atomic_set, with no access counted |
| SharedStore.AccessStep | rann_agent/orchestration/shared_context.py:147-296 | gets, touches and changes of tags of a live key each count one access, and nothing else but a restart changes the count |
| SharedStore.FileAfter | rann_agent/orchestration/shared_context.py:211-398 | which operations rewrite the file, and that it then holds exactly the live entries and the vector |
| SharedStore.RunKeepsKeys | rann_agent/orchestration/shared_context.py:147-415 | in every run each entry is stored under its own key, in memory and in the file |
| SharedStore.GetSettlesVersions | rann_agent/orchestration/shared_context.py:147-156 | after a get the version test agrees with what a reader is told |
| SharedStore.SecondWinnerIff | rann_agent/orchestration/shared_context.py:255-275 | after a successful compare-and-set, a second one with the same expected version can succeed in the same lifetime if and only if the first overwrote an expired leftover and the create count was below the expected version |
| SharedStore.TwoWinners | rann_agent/orchestration/shared_context.py:267-275 | a run from an empty context after which two such calls succeed |
| SharedStore.VectorStep | rann_agent/orchestration/shared_context.py:236-248 | apart from merges and restarts the vector changes exactly when a key is created through set, and a written file holds the vector of that moment |
| SharedStore.StoreRefinesProtocol | rann_agent/orchestration/shared_context.py:211-415 | every operation of a context, restarts included, is a run of steps of the vector protocol that no other replica notices and that logs a creation exactly when set makes a new entry |
| Clusters.EventSimulates | rann_agent/orchestration/shared_context.py:211-415 | operations, hand-outs, merges and openings of any number of contexts are runs of the protocol, with each context's and each file's vector digesting what it heard of |
| Clusters.HappenedBeforeIsInclusion | rann_agent/orchestration/shared_context.py:88-98 | over every run of any number of contexts, happened_before between any two vectors, in contexts, files or copies, is strict inclusion of the set creations heard of |
| Clusters.OwnCountIsExact | rann_agent/orchestration/shared_context.py:236-248 | a context's own count is the number of keys it created through set |
| SharedFiles.FileShowsLastWriter | rann_agent/orchestration/shared_context.py:384-415 | after any run of any number of contexts on one file, the file shows a context's live entries if and only if that context shows those of the last writer, and always before the first write |
| SharedFiles.SecondWriterDropsKey | rann_agent/orchestration/shared_context.py:384-398 | a run of two contexts after which the file lacks a key that one of them still has |
| Decomposer.GetExecutionOrder | rann_agent/intelligence/task_decomposer.py:217-244 | the loops, removing by equality one by one, form the levels of the layering function |
| Decomposer.CollectReady | rann_agent/intelligence/task_decomposer.py:228-234 | collects, in order, exactly the subtasks with no dependency still waiting |
| Decomposer.Discard | rann_agent/intelligence/task_decomposer.py:241-242 | removes the first equal element for each member of the level |
| Decomposer.RemoveEachSelected | rann_agent/intelligence/task_decomposer.py:241-242 | that leaves the unready subtasks in order, even when equal subtasks repeat |
| Decomposer.LevelsPermute | rann_agent/intelligence/task_decomposer.py:222-244 | for every input the levels concatenated are a permutation of it |
| Decomposer.LateDependencyMeansStuck | rann_agent/intelligence/task_decomposer.py:236-238 | a dependency in the same or a later level occurs only in a one-element level formed while everything left was stuck |
| Decomposer.NeverStuckIffLayerable | rann_agent/intelligence/task_decomposer.py:236-238 | the fallback is never used if and only if a valid layering exists |
| Decomposer.NeverStuckIffAcyclic | rann_agent/intelligence/task_decomposer.py:236-238 | the fallback is never used if and only if no chain of dependencies in the list closes to a cycle |
| Decomposer.LevelsAreOptimal | rann_agent/intelligence/task_decomposer.py:217-244 | without a dependency cycle, a subtask's level is its longest dependency chain, and no layering places it earlier; ids need not be unique |
| Decomposer.FewestLevels | rann_agent/intelligence/task_decomposer.py:217-244 | no layering uses fewer levels |
| Decomposer.DependenciesFirst | rann_agent/intelligence/task_decomposer.py:226-242 | without a dependency cycle, every dependency in the list is in a strictly earlier level |
| Decomposer.SplitTask | rann_agent/intelligence/task_decomposer.py:159-189 | every part is stripped and non-empty, whatever the regular expressions split |
| Decomposer.SplitKeepsAll | rann_agent/intelligence/task_decomposer.py:181-189 | the parts are exactly the pieces that are not white space alone, stripped and in order, of the separators or, when those give just one and numbers split further, of the numbers |
| Decomposer.StripDropsSpace | rann_agent/intelligence/task_decomposer.py:181 | stripping takes white space off both ends and nothing else |
| Decomposer.StepIdInjective | rann_agent/intelligence/task_decomposer.py:146 | step ids are distinct |
| Decomposer.StepIdReads | rann_agent/intelligence/task_decomposer.py:146 | a step id is "step_" and a decimal that reads as its number |
| Decomposer.TaskDecomposer.Decompose | rann_agent/intelligence/task_decomposer.py:118-157 | no index is out of range and no part is skipped: each part gives one step with its id, text, hint, order, difficulty and its dependency on the step before from the third on; or the answer is the cached one; either is then cached |
| Decomposer.LevelsOfSteps | rann_agent/intelligence/task_decomposer.py:138-143 | layering n >= 2 steps gives exactly n - 1 levels: the first two together, then one by one in order |
| Decomposer.CachedAnswer | rann_agent/intelligence/task_decomposer.py:120-123 | whatever was asked before, the answer is that of the first task sharing the first 100 characters; with tasks of at most 100 characters the cache changes no answer |
| Decomposer.CacheIsInvisibleIff | rann_agent/intelligence/task_decomposer.py:120-123 | under all heuristics the answer is the uncached one if and only if no task of the history shares the first 100 characters or the first that does is the task itself |
| Decomposer.SharedKeyMisleads | rann_agent/intelligence/task_decomposer.py:120-123 | of two different unsplit tasks with the same first 100 characters the second gets the first one's step |
| Decomposer.LongTasksShareAnswers | rann_agent/intelligence/task_decomposer.py:159-189 | two such tasks, for all regular expressions that leave them whole |
| Cache.InMemoryCache.GetOne | rann_agent/cache/memory.py:37-48 | the live value or none, counted as a hit or a miss, dropping what gave none |
| Cache.InMemoryCache.SetOne | rann_agent/cache/memory.py:50-62 | the store after room was made, and every entry that left without being replaced is counted as an eviction |
| Cache.InMemoryCache.EvictStale | rann_agent/cache/memory.py:102-110 | pops exactly the first expired keys, at most the given number |
| Cache.InMemoryCache.PopEach | rann_agent/cache/memory.py:59-61 | pops and counts exactly the given keys |
| Cache.InMemoryCache.DeleteOne | rann_agent/cache/memory.py:64-69 | the key goes, and whether it was there is told |
| Cache.InMemoryCache.ClearAll | rann_agent/cache/memory.py:71-76 | store and counters are reset |
| Cache.InMemoryCache.ExistsOne | rann_agent/cache/memory.py:78-86 | whether a live entry is there, dropping an expired one |
| Cache.OldestFirst | rann_agent/cache/memory.py:56-61 | the loop removes exactly a prefix of insertion order, of max(1, max_size // 10) keys |
| Cache.OverflowIff | rann_agent/cache/memory.py:53-56 | within capacity the loop is reached if and only if the store is full, the key new and nothing expired |
| Cache.AfterValid | rann_agent/cache/memory.py:50-62 | after every run the store is within capacity (within one entry for a capacity below one) |
| Cache.IdealIsLatestSet | rann_agent/cache/backend.py:67-71 | the ideal map holds the latest set of a key not deleted or cleared since |
| Cache.HitIsLatestSet | rann_agent/cache/memory.py:37-48 | a hit is the value of that latest set, not past its deadline, whatever was evicted |
| Cache.ReadUntilDeadline | rann_agent/cache/memory.py:37-86 | after the latest set of a key, get gives exactly its value, and exists finds it, until its time to live has passed, unless the key was popped among the oldest or, for exists, is a None that was read |
| Cache.UnsetIsAbsent | rann_agent/cache/memory.py:37-86 | a key never set, or deleted or cleared since, is not found |
| Cache.AskingPrunes | rann_agent/cache/memory.py:43-85 | after get the key is stored if and only if a value was given, after exists if and only if it was found |
| Cache.GetMatchesIdealIff | rann_agent/cache/memory.py:37-86 | in every run get answers as the unbounded map if and only if that has no value or the key was not popped among the oldest since its latest set |
| Cache.SecondSetLosesFirst | rann_agent/cache/memory.py:50-62 | with room for one, a second key loses the first |
| Cache.GetRefinesIdeal | rann_agent/cache/memory.py:37-86 | in runs that never reach the oldest-first loop, get answers as the unbounded map |
| Cache.ExistsMatchesIdealIff | rann_agent/cache/memory.py:78-86 | in every run exists answers as that map if and only if the key is not live there, or neither popped so nor a stored None that some get has read since |
| Cache.ExistsRefinesIdeal | rann_agent/cache/memory.py:78-86 | in runs that never reach the oldest-first loop, the latter alone |
| Cache.StoredNoneIsDropped | rann_agent/cache/memory.py:43-47 | a stored None exists until the first get drops it |
| RateLimits.RateLimiter.IsAllowed | rann_agent/auth/__init__.py:180-195 | decides on the requests newer than the cutoff, stores them and the accepted one, and leaves other keys alone |
| RateLimits.CountsAgreeIff | rann_agent/auth/__init__.py:188-195 | for every run, key and cutoff the pruned list counts as many as the full history if and only if no accepted request newer than the cutoff was reached by a later request's cutoff, and never more |
| RateLimits.DecisionsAgreeIff | rann_agent/auth/__init__.py:190-192 | under every limit the decision is that of the full history if and only if nothing newer than the cutoff was so forgotten |
| RateLimits.DecisionsIgnorePruning | rann_agent/auth/__init__.py:188-192 | if a key's cutoffs never go back, each decision on the pruned list is the decision on the full history |
| RateLimits.FixedWindowsRise | rann_agent/auth/router.py:178-181 | they never go back with fixed windows and a clock that never goes back |
| RateLimits.ShrinkingWindowForgets | rann_agent/auth/__init__.py:188-192 | with varying windows a request is accepted that the full history forbids |
| RateLimits.KeysAreIndependent | rann_agent/auth/router.py:183-191 | what is stored and accepted for a key depends on its own requests only |
| RateLimits.WindowBound | rann_agent/auth/router.py:178-192 | every interval (t - window, t] holds at most max_requests accepted requests |
| ContextTrim.EstimateTokens | rann_agent/memory/context_trim.py:52-84 | all three branches are a sum of per-message weights |
| ContextTrim.CharBounds | rann_agent/memory/context_trim.py:52-84 | without an encoder tokens are characters by four, or by three for code, but for rounding |
| ContextTrim.LooksLikeCodeIff | rann_agent/memory/context_trim.py:52-84 | a message looks like code if and only if one of six marks stands in it |
| ContextTrim.EncoderSeesContents | rann_agent/memory/context_trim.py:52-84 | the encoder is asked about contents |
| ContextTrim.TrimContext | rann_agent/memory/context_trim.py:111-175 | the input if it fits, else the fallback, else the greedy fill |
| ContextTrim.InsertIfFits | rann_agent/memory/context_trim.py:168-173 | inserting before the tail and popping on overflow keep the result of the right form, with no index out of range |
| ContextTrim.LongPastFallback | rann_agent/memory/context_trim.py:138-152 | past the fallback there are more than ten messages |
| ContextTrim.TrimmedIsMaximal | rann_agent/memory/context_trim.py:155-175 | the result is within budget if and only if system message and tail are, and then keeps the largest number of middle messages that fits |
| ContextTrim.KeptIsPositions | rann_agent/memory/context_trim.py:163-175 | which input position each kept message comes from: system, newest middle first, tail |
| ContextTrim.HeadAndTail | rann_agent/memory/context_trim.py:119-138 | a trimmed conversation ends with the last ten messages and begins with the first one of role "system" in any case |
| ContextTrim.RepeatsIff | rann_agent/memory/context_trim.py:138-175 | an over-budget input comes back without repetition if and only if it has no system message, or that is before the last ten messages and does not fit together with everything from it on |
| ContextTrim.LateSystemRepeats | rann_agent/memory/context_trim.py:146-175 | a system message after two others, past the fallback, kept twice |
| ContextTrim.NoDuplicatesPastFallback | rann_agent/memory/context_trim.py:146-153 | never past the fallback with the system message first or absent |
| ContextTrim.FallbackGrows | rann_agent/memory/context_trim.py:130-175 | an over-budget input comes back longer if and only if it has at most ten messages and a system message, then by one, with the system message twice |
| Rollback.RollbackEngine.SnapshotFile | rann_agent/core/rollback_engine.py:214-247 | the text with line feeds, or none for a missing or unreadable file |
| Rollback.EndingsReadAlike | rann_agent/core/rollback_engine.py:226-229 | a snapshot of lines is the same whichever of the three line endings they have |
| Rollback.RollbackEngine.RecordFileModification | rann_agent/core/rollback_engine.py:278-292 | a pending step with the file's snapshot is appended to the procedure |
| Rollback.RollbackEngine.BeginProcedure | rann_agent/core/rollback_engine.py:352-366 | the current procedure is a new empty one |
| Rollback.RollbackEngine.ExecuteStep | rann_agent/core/rollback_engine.py:405-429 | a file-snapshot step restores the snapshot or removes the file, or fails leaving anything at that path |
| Rollback.StepIsExact | rann_agent/core/rollback_engine.py:405-429 | what a step leaves at its path and at others, and its status, when it works, when it fails and when it has no snapshot |
| Rollback.RollbackEngine.ExecuteSteps | rann_agent/core/rollback_engine.py:559-569 | the loop over the steps, with failures and stopping, is the execution function |
| Rollback.RollbackEngine.ExecuteRollback | rann_agent/core/rollback_engine.py:533-584 | files, step statuses, procedure status and completed count of an execution of the given or current procedure |
| Rollback.ExecutionIsExact | rann_agent/core/rollback_engine.py:559-566 | without failures each recorded path ends at its last snapshot, every other path untouched, every step completed |
| Rollback.SecondExecutionIsIdle | rann_agent/core/rollback_engine.py:560-561 | a second execution changes nothing |
| Rollback.VerdictIff | rann_agent/core/rollback_engine.py:571-582 | the procedure succeeds if and only if every step is done |
| Rollback.RollbackRestoresIff | rann_agent/core/rollback_engine.py:533-584 | after any run changing only recorded paths, the rollback restores the starting files if and only if each last snapshot puts back what was there |
| Rollback.RecordedOnceRestoresIff | rann_agent/core/rollback_engine.py:226-236 | with no path recorded twice, if and only if every recorded file was readable and free of carriage returns |
| Rollback.RetryRestoresIff | rann_agent/core/rollback_engine.py:559-569 | after a first execution, failed or stopped, a failure-free retry leaves a recorded path at its last snapshot if and only if no step of the path was left undone or the last undone one puts back the same |
| Rollback.ExecutionRestoresIff | rann_agent/core/rollback_engine.py:559-569 | from any statuses, so after any number of executions, a failure-free one leaves a recorded path at its last snapshot if and only if the last undone step puts the same back or, none being undone, the path is there already |
| Rollback.RetriesRestore | rann_agent/core/rollback_engine.py:559-569 | with no path recorded twice, any number of failed or stopped executions followed by a failure-free one leaves every path at its snapshot |
| Rollback.RetryRestores | rann_agent/core/rollback_engine.py:559-569 | in particular after one |
| Rollback.RetryOrderMatters | rann_agent/core/rollback_engine.py:559-569 | with a path recorded twice the retry can end at the older snapshot, and no later execution changes that |
| StateMachines.ReachableIff | rann_agent/core/state.py:56-111 | from QUEUED every state but CANCELLED can be reached |
| StateMachines.CompletableIff | rann_agent/core/state.py:56-111 | COMPLETED can be reached from exactly the states that are not terminal, and itself |
| StateMachines.ChainAt | rann_agent/core/state.py:256-269 | each transition of a history is valid, starts where the one before ended and leaves a non-terminal state |
| StateMachines.CompletionWasChecked | rann_agent/core/state.py:56-111 | a completed history not completed straight from ANALYZING went EXECUTING, VERIFYING, ACCEPTANCE_CHECK right before, with at most LEARNING between |
| StateMachines.AgentStateMachine.Transition | rann_agent/core/state.py:244-284 | refuses exactly what the table does not allow, changing nothing; else moves, records and persists |
| StateMachines.AgentStateMachine.Persist | rann_agent/core/state.py:305-317 | the file is the encoding of the machine, or as it was if the write was refused, or does not parse if it was cut short |
| StateMachines.AgentStateMachine.Load | rann_agent/core/state.py:319-347 | what a load leaves in each case, including a file that stops decoding after the state was assigned |
| StateMachines.HistoryRoundTrip | rann_agent/core/state.py:142-159 | decoding an encoded history gives the history |
| StateMachines.LoadRestores | rann_agent/core/state.py:305-347 | after any persisted transition, loading on a fresh machine restores state, time and history |
| StateMachines.FailedLoadChangesIff | rann_agent/core/state.py:329-347 | a failed load changes the machine if and only if the file parses and names a known state and that state or its time differ (so a record did not decode), and it never changes the history |
| StateMachines.HalfLoaded | rann_agent/core/state.py:329-347 | a file from elsewhere after whose failed load the state is PLANNING with an empty history |
| StateMachines.ReachableIsChain | rann_agent/core/state.py:244-347 | over transitions, refusals, failed and cut-short writes and restarts the history is a chain from QUEUED to the current state, terminal only at its end |
| Lifecycles.AgentLifecycle.Transition | rann_agent/core/lifecycle.py:125-147 | the machine and whether the call raised |
| Lifecycles.AgentLifecycle.TakeCheckpoint | rann_agent/core/lifecycle.py:180-204 | the machine and whether the call raised, at each point where it can |
| Lifecycles.AgentLifecycle.RunBody | rann_agent/core/lifecycle.py:64-109 | leaving run() leaves the machine terminal, with the outcome of the run function |
| Lifecycles.RunEndsTerminal | rann_agent/core/lifecycle.py:73-109 | from any state, whatever the body calls and however it ends |
| Lifecycles.RunKeepsInv | rann_agent/core/lifecycle.py:64-204 | the history is still a chain of valid transitions |
| Lifecycles.RunOutcome | rann_agent/core/lifecycle.py:73-109 | the exact final state, and that run() raises unless it completes |
| Lifecycles.BodyMakesCalls | rann_agent/core/lifecycle.py:73-109 | each call of a body acts on what the ones before left |
| Lifecycles.CheckpointReturnsIff | rann_agent/core/lifecycle.py:198-202 | a checkpoint returns to its state without raising if and only if taken while EXECUTING |
| ExecutionLoops.BudgetTracker.RecordModelCall | rann_agent/core/budget.py:220-226 | calls, tokens by kind, total tokens and cost all advance |
| ExecutionLoops.PlayRound | rann_agent/core/runtime.py:347-505 | one round of the loop, with every way it can end |
| ExecutionLoops.ExecuteLoop | rann_agent/core/runtime.py:343-507 | the loop ends on every world, and at its end the bounds hold |
| ExecutionLoops.ExecuteTools | rann_agent/core/runtime.py:453-490 | exactly the tools that returned are counted |
| ExecutionLoops.HeadsAreBalanced | rann_agent/core/runtime.py:347-349 | at every loop head turns and model calls are equal, within both limits, and consumption is exactly the sum of the turns |
| ExecutionLoops.LoopBounds | rann_agent/core/budget.py:75-84 | in the end model calls never exceed either limit, tokens overshoot by less than the last response and tool calls by less than the last batch, and a loop that finished recorded every turn before the warning threshold |
| ExecutionLoops.EndsIff | rann_agent/core/runtime.py:347-505 | in the turn it has got to, the loop ends for lack of budget, by a failed model, done, or at the turn limit, or goes on, if and only if what is left of the six budgets, the two attempts at the model, the clock and the tool calls say so |
| ExecutionLoops.WarningEndsIff | rann_agent/core/budget.py:127-143 | in the turn it has got to, the loop ends by a raising warning if and only if a budget is left, the model answers, and the clock is past the threshold when the call or the turn is recorded |
| ExecutionLoops.AnswerPastThresholdRaises | rann_agent/core/budget.py:127-143 | under the default budget an answer after 48 of 60 minutes ends the loop with no budget exhausted |
| ShellQuoting.LexEscape | rann_agent/core/security.py:120-124 | wherever it stands unquoted, an escaped argument adds exactly its text to the word being read, or begins one after an operator |
| ShellQuoting.EscapeRoundTrip | rann_agent/core/security.py:120-124 | the shell reads an escaped argument as exactly one word, the argument |
| ShellQuoting.EscapeInCommand | rann_agent/core/security.py:120-124 | after any complete command line, with operators, redirections, both kinds of quotes and comments, and a space it adds that one word and disturbs nothing before it |
| ShellQuoting.EscapeBetween | rann_agent/core/security.py:120-124 | between two complete pieces it is that one word, and both are read as alone |
| ShellQuoting.JoinRoundTrip | rann_agent/core/security.py:120-124 | joining escaped arguments with spaces reads back as the argument list |
| ShellQuoting.EscapeInjective | rann_agent/core/security.py:120-124 | different arguments are escaped differently |

## Left out

- Agents.AgentRegistry.Deregister: terminating the agent's subprocess is left out; callers that wait for the lock are not modelled as tasks, only that they are not served.
- Agent records hold id, name, role and links; capabilities, metadata, heartbeats, counters, status updates and subprocesses do not touch the links and are left out.
- SharedStore.SharedContext.Put: each operation reads the clock once, where the source reads it again for every expiry test of the same call; values, tags and files are values, so a caller that mutates a returned entry or value is not modelled.
- SharedStore.ReloadAgrees: one context on its own file; several contexts on one file are in `SharedFile.dfy`.
- The shared context's database loading, disk write errors, `find_by_tags`, `keys`, `get_many` and statistics.
- VersionVectors.VersionVector.Merge: counts are non-negative, as increments make them; a hand-written file could hold others.
- Decomposer.SplitTask: the regular-expression splits are parameters; only the clean-up after them is modelled. `should_decompose` and the keyword tables are parameters or left out.
- Decomposer.TaskDecomposer.Decompose: the cached list is a value, so a caller that changes a returned list is not modelled.
- Cache.InMemoryCache.SetOne: each operation reads the clock once; the thread lock and `get_stats` are left out.
- RateLimits.RateLimiter.IsAllowed: the router's `check_rate_limit` is the same algorithm over a module dictionary and is not written a second time.
- ContextTrim.TrimContext: the available budget is a parameter (any integer) instead of the model's window minus the reserve; messages are values.
- Rollback.RollbackEngine.ExecuteStep: file snapshots only; command, git, deployment, environment, directory and deleted-file steps, parent directories, checksums, timestamps and the persisted procedure record are left out. Written text is not translated, as on POSIX systems.
- StateMachines.AgentStateMachine.Persist: time stamps and metadata pass through JSON unchanged.
- Lifecycles.AgentLifecycle.RunBody: events are no-ops, and task cancellation, which is not an `Exception`, is left out.
- ExecutionLoops.ExecuteLoop: the machine is not terminal when the loop starts (it would then read an unassigned variable); token counts in responses are non-negative; costs stay zero, as the loop records none; the results handed back to the model are left out, so also that a warning raised while a tool call is recorded turns its result into a failure.
- ShellQuoting.EscapeInCommand: expansions and the text of here-documents end the model's reading; reserved words, assignments and descriptor numbers are words like others.
- API routers, command line, user interfaces, language-model providers, browser, voice, vision, gateways, sandboxes, message bus, memory stores, authentication and sessions.
