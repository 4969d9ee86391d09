# Agent Pinboard, verified

Agent Pinboard lets a language-model agent pin what its tools return to a shared graph. Each call
of a decorated tool becomes one event per returned item; each marked field of an item becomes a
fact, identified by its type and canonical value; an edge runs from the event to each fact it saw.
Facts seen before are linked, not duplicated. The graph of a session lives in a key-value store
with one key per node and per edge, and is rebuilt from it at each load.

This project models that graph, its ingest, its store and the tools around it in Dafny 4.11, and
proves what they keep. `dafny verify dfyconfig.toml` checks all of it.

## How the model is laid out

| module | what it holds |
|---|---|
| `Core`, `GraphModel` | ids, entities, records; the abstract graph and what each mutation does to it |
| `FactGraphs` | the class `FactGraph` with its node table, edges and two indices, mutated in place |
| `Trees`, `Flattening`, `Scans` | model trees and what sits where in them; the flat reading of a tree, and that it misses nothing; what a reading comes to |
| `Extraction`, `Ingest`, `Accounting` | the recursive walk over model trees, the delta of one ingest, what its counts add up to |
| `Occurrences`, `Answers` | what an ingest writes and what its summary says, told by the values in its items |
| `Provenance`, `Snapshot`, `Stores`, `KeyValue` | recomputed provenance, rebuilding a graph, the sharded store and its scan limit |
| `Deltas`, `Protocol`, `Confluence`, `Progress` | what a delta depends on; any number of unsynchronised workers, one single-key put at a time; that none waits for another |
| `Serial`, `Conservation`, `Overcount`, `Display`, `Locking` | ingests one after another: counting, with and without exclusion, the text shown for a fact, threads under the session lock |
| `Coherence`, `Incremental`, `Archive`, `Queries` | the in-memory graph against the reloaded one; dump and load; listings by type |
| `Reach`, `Traversal`, `PathFinding` | distance balls; `explore`; the path graph, `find_path`, and their agreement |
| `Registry` | the scan of cyclic model classes for entities |
| `ToolLog`, `Calls`, `Overlap` | the call log, duplicate handling, validation, the synchronous wrapper and whole runs of calls, one after another and overlapping |
| `StreamHook`, `LateJoiner`, `Joining`, `Overflow` | the bounded delta queue, snapshots, pages that join late, message by message, with and without overflow |
| `Counterexamples` | families of inputs on which a promise fails, for the conditions that the theorems need |

Code that changes things step by step is imperative here too: `FactGraph`, the extractor, the
payload, the store, the registry, the log, the hook and the lock table are classes whose methods
are proved against functions on values; the theorems are stated on those functions.

What is assumed, and where it shows:

- The digest of a fact id is collision free, so an id is kept as the text it digests. Two keys can
  still share that text when a type name holds a bar (`Core.TypesCollideIff`). The theorems about
  runs take a table `names` of the keys in play; it exists exactly when no two of these keys share an
  id (`Core.NamingExistsIff`, `Confluence.FreshJobsIff`), as when their type names do not collide
  (`Core.TypesApart`), and without it they are false (`Confluence.SettledIsMergeIff`, `Counterexamples.CollidingNamesLoseAFact`). What concerns
  one store or one graph alone (loading, dumping, coherence) asks for no such table.
- Event ids are fresh (`FreshJobs`): UUIDs are numbers, used once.
- A load is atomic only where a statement says so. The protocol lets every worker read the nodes,
  then the edges, at different moments, and see any part of either.
- Clocks, the order in which sets and searches are enumerated, the outcome of the wrapped tool and
  the outcome of a normalizer are inputs.

Where the code and its documentation differ, the model follows the code:

- `models.py:24-26` says that an entity named "Event" is rejected; `entity.py:30-34` does not
  reject it. `Queries.FactsAllListedIff` says exactly what then goes wrong, and
  `Counterexamples.ReservedEntityIsLost` is an ingest on which it does.
- `docs/en/extraction-rules.md` reads as if every unmarked scalar ends on the event; `extract.py:55-67`
  collects only the fields of the item itself, not those of nested models.
- `registry.py:107-112` says that other annotation shapes give no models; the code descends into
  the arguments of any generic.
- `websocket_hook.py:206-207` says that each client receives the latest snapshot and then every
  subsequent delta; a page that connects after part of a batch was drained has a snapshot from before
  the batch and never gets that part (`Joining.JoinWhileRunning`, `Counterexamples.TornBatchIsLost`),
  and before the first ingest of a process there is no snapshot, whatever the store holds.
- `enums.py:20-25` describes what happens when a tool is called twice with the same arguments; the
  check is outside the lock, so two calls that overlap both ingest (`Overlap.BothIngest`).
  `Overlap.SuppressedIffLogged` says exactly when a call is suppressed.
- `tools.py:521-524` announces elided nodes whenever the cap was reached, also when nothing was
  left out (`PathFinding.ElisionNotice`, `PathFinding.ElisionNoticeWrong`).

## Model

| member | source | states |
|---|---|---|
| Confluence.ConcurrentEqualsSerial | agent_pinboard/store.py:190-202 | for any number of workers and any interleaving of their reads and single-key puts, a settled run leaves the same edges and the same records, up to the text shown for a fact, as the jobs run one after another in any order; and the two stores load to the same graph, provenance and its order included |
| Confluence.LinksSurvive | agent_pinboard/graph.py:149-171 | no worker loses another's links: from the moment a worker has put its delta, in every reachable state, whatever the others are doing and wherever they stopped, each occurrence it extracted has its event and tool in the provenance of its fact when the store is loaded |
| Confluence.AlwaysIntegral | agent_pinboard/store.py:199-202 | at every instant of every run, wherever workers stopped, each stored edge has its event and its fact stored, and each record sits under the id its contents determine |
| Confluence.NothingLost | agent_pinboard/store.py:190-202 | at every instant the store is its original contents and what has been put so far: nothing is overwritten by something else, nothing is made up |
| Confluence.SettledIsMerge | agent_pinboard/decorator.py:231-234 | once every worker has finished or refused, the store is the union of the deltas of the jobs that succeed |
| Confluence.SettledIsMergeIff | agent_pinboard/models.py:29-31 | for jobs that succeed, with fresh event ids, a settled run leaves that union if and only if no two keys of the base store and the jobs share a fact id |
| Counterexamples.CollidingNamesLoseAFact | agent_pinboard/models.py:29-31 | for any two type names that collide there is a job of two marked scalars that succeeds on the empty store and of which no settled run leaves that union |
| Progress.WaitFree | agent_pinboard/store.py:190-202 | from every reachable state, of any jobs on any store, each worker reaches its end by at most its remaining steps of its own, with no other worker moved |
| Progress.BoundedWork | agent_pinboard/decorator.py:402-432 | in any run the steps that changed a worker and those it has left come to no more than three, one per item and two per marked leaf, whatever it reads and whatever the others do |
| Progress.CanSettle | agent_pinboard/store.py:190-202 | every reachable state can be continued to a settled one |
| Confluence.FreshJobsIff | agent_pinboard/models.py:29-31 | the hypothesis on keys that the theorems about runs make can be met if and only if no two keys in play share a fact id |
| Confluence.MergeMeansApart | agent_pinboard/graph.py:157-170 | a store with each record under its id that has merged the jobs has one fact per key, so no two of the keys share an id |
| Confluence.MergeIgnoresOrder | agent_pinboard/store.py:190-202 | that union does not depend on the order in which jobs are listed |
| Confluence.SerialIsMerge | agent_pinboard/decorator.py:231-234 | a serial run makes the same union and keeps the store well formed |
| Protocol.StepKeepsInv | agent_pinboard/store.py:199-202 | every single step of any worker, from any state, keeps the invariant that ties the store to what each worker has put |
| Deltas.DeltaIndependence | agent_pinboard/decorator.py:387-441 | what an ingest writes depends on its items alone: from any graph whose key index is right, stale, torn or cut as it may be, it fails on the same jobs and yields the same edges, events and facts |
| Deltas.DeltaExactness | agent_pinboard/decorator.py:402-432 | the records of a delta have distinct ids, which are exactly the new event ids and the targets of its edges |
| Serial.IngestAdds | agent_pinboard/decorator.py:231-234 | one whole ingest adds exactly its job's records and edges to a well-formed store, or nothing if it raises |
| Incremental.IncrementalEqualsRecomputed | agent_pinboard/graph.py:149-171 | the graph an ingest leaves in memory has the nodes, edges, indices, source events and source tools (as sets) that a reload of the persisted store derives |
| Incremental.IngestCoherent | agent_pinboard/decorator.py:231-234 | an ingest keeps the graph coherent, persists exactly what that graph holds, and changes no stored record |
| Incremental.PersistAndLoad | agent_pinboard/store.py:181-202 | a coherent graph survives being persisted and loaded |
| Coherence.LoadInv | agent_pinboard/graph.py:287-319 | loading a well-formed store gives a coherent graph that stores back to it |
| Coherence.AddEventInv | agent_pinboard/graph.py:102-105 | adding a fresh event keeps both indices, the end points and all provenance in step |
| Coherence.SightedInv | agent_pinboard/graph.py:145-180 | so does a sighting with its edge, for a new fact and for a known one |
| Coherence.IndexIsExact | agent_pinboard/graph.py:145-147 | in a coherent graph a key is indexed if and only if its fact is there, under its own id |
| Stores.SnapshotDeterminism | agent_pinboard/graph.py:287-319 | rebuilding from any two listings of the same records and edges gives identical graphs, down to the order of source events |
| Stores.RebuildIsLoad | agent_pinboard/store.py:181-187 | the loops of a rebuild compute the graph that the store stands for, whatever the listing |
| Provenance.ListingIsUnique | agent_pinboard/graph.py:63-74 | there is one duplicate-free listing of a set of events in the order of time, then id |
| Stores.LoadedProvenanceIs | agent_pinboard/graph.py:46-78 | from any store, torn or whole: a loaded fact's source events are exactly the stored events with an edge to it, once each, by time then id; its tools are theirs; first and last seen are the least and greatest of their times, or the epoch if there are none; edges to missing events are ignored |
| Snapshot.FromSnapshot | agent_pinboard/graph.py:287-319 | the imperative rebuild, its object table and its backfill yield the specified graph |
| Snapshot.BackfillFactProvenance | agent_pinboard/graph.py:46-78 | every fact object ends with the provenance of its edges; edges to missing events are ignored |
| Snapshot.FillFact | agent_pinboard/graph.py:61-78 | one fact: distinct known events, sorted, their tools, and the two times when there are any |
| KeyValue.KvStore.PersistDelta | agent_pinboard/store.py:190-202 | the node loop, then the edge loop, put the records and the edges one key at a time |
| KeyValue.KvStore.LoadGraph | agent_pinboard/store.py:181-187 | within the scan limit the loaded graph is that of the whole store, beyond it that of some part of it, for stores whose facts sit under the ids of their keys |
| KeyValue.KvStore.SearchNodes | agent_pinboard/store.py:183 | a search yields distinct stored records, all of them when the limit allows |
| FactGraphs.FactGraph.UpsertFact | agent_pinboard/graph.py:107-171 | insert-or-link in place, told by the entity's normalizer and the value: None is skipped, a raising normalizer fails, empty text is dropped with a warning, each if and only if; otherwise the text the normalizer gives, or the value's own without one, is the key, and the fact is linked (event, tool, time) or created, the rest of the graph unchanged |
| FactGraphs.AutolinkIff | agent_pinboard/graph.py:128-145 | two values of one entity get the same fact id if and only if they have the same canonical text |
| FactGraphs.SecondIsLinkedIff | agent_pinboard/graph.py:145-171 | of two values of one entity inserted in turn the second lands on the fact of the first if and only if the normalizer sends both to one text, and is then linked |
| FactGraphs.FactGraph.Link | agent_pinboard/graph.py:149-155 | a known fact's object is mutated where it sits and nothing else changes |
| FactGraphs.FactGraph.AddEvent | agent_pinboard/graph.py:102-105 | the event and its index entry are added |
| FactGraphs.FactGraph.AddEdge | agent_pinboard/graph.py:173-180 | the edge is added under its id, with whichever end point was missing |
| Extraction.Extractor.Walk | agent_pinboard/extract.py:74-149 | told by what sits where in the tree: the walk fails if and only if some shape, at any depth, has to be refused or some normalizer raises, with the error of the first such spot; otherwise each value with a canonical text has its edge from the event, under the label and description of its field, in order, each value with an empty text its warning, and no other edge or index entry appears; what came before a failure stays |
| Flattening.FlattenReads | agent_pinboard/extract.py:89-146 | the flat reading of a model lists exactly what sits in it, through unmarked models and models in unmarked lists at any depth: marked scalars and models, elements of marked lists, refused shapes; each once, in the order of fields and elements |
| Trees.ReadingIsUnique | agent_pinboard/extract.py:89-146 | what sits where in a model determines its reading, order included |
| Scans.ScanModelFinds | agent_pinboard/extract.py:92-149 | a scan finds exactly the occurrences of facts and the dropped values, spot by spot, or the first failure |
| Occurrences.IngestTells | agent_pinboard/decorator.py:402-441 | from any graph whose key index is right, an ingest fails if and only if some value in some item cannot be taken, with the first error; otherwise its edges are exactly those of the values that occur, its facts exactly theirs, and its events exactly those of the items, with tool, time and scalars |
| Extraction.Extractor.WalkMarked | agent_pinboard/extract.py:98-109 | a marked list emits its scalars in order up to the first container, which is refused |
| Extraction.Extractor.WalkPlain | agent_pinboard/extract.py:119-132 | an unmarked list is entered at its models, ignores scalars and refuses containers |
| Extraction.Extractor.EmitOne | agent_pinboard/extract.py:152-187 | one leaf: the graph, the edge and the new and linked lists all move as one sighting says |
| Accounting.ScanAccounts | agent_pinboard/extract.py:92-149 | a reading fails if and only if some leaf fails; otherwise sightings, warnings and None values add up to the leaves |
| Accounting.IngestAccounts | agent_pinboard/decorator.py:402-440 | from any graph: `new_edges` plus warnings plus None values is the number of marked leaves of all items, and `new_nodes` is the number of keys the graph gained |
| Ingest.BuildPayload | agent_pinboard/decorator.py:387-441 | the imperative ingest delivers the specified delta and a summary that counts it; on a failure the graph keeps the part done and there is no delta |
| Answers.IngestReports | agent_pinboard/decorator.py:434-440 | from any store: the summary has the event ids in order, the number of keys the store lacked, for each item the number of distinct facts it found again, the edges, and the warnings |
| Answers.WarningsOccur | agent_pinboard/graph.py:135-143 | the warnings are those of the values, at any depth, whose canonical text is empty |
| Ingest.IngestItem | agent_pinboard/decorator.py:402-422 | one item moves the graph, the payload lists and the counters together |
| Ingest.Payload.RefreshNodes | agent_pinboard/decorator.py:424-432 | every touched fact not yet listed is appended once, in order |
| Ingest.CollectProperties | agent_pinboard/extract.py:55-67 | a name is in the result if and only if some unmarked scalar field of the item itself has it, with the value of the last such field |
| Ingest.EventPropertiesAre | agent_pinboard/extract.py:55-67 | the same of the function that stands for the event's properties in the model |
| Core.FactIdsDetermineKeys | agent_pinboard/models.py:29-31 | on bar-free type names two fact ids are equal if and only if their keys are |
| Core.TypesApart | agent_pinboard/models.py:29-31 | keys whose type names do not collide do not share fact ids |
| Stores.OwnNames | agent_pinboard/models.py:29-31 | any one well-formed store can be named: it has no two keys under one id |
| Core.NamingExistsIff | agent_pinboard/models.py:29-31 | some table gives each of a set of keys under its own fact id if and only if no two of them share an id |
| Core.TypesCollideIff | agent_pinboard/models.py:29-31 | two different type names can yield one fact id if and only if one of them followed by a bar is a prefix of the other |
| Core.EdgeTextDeterminesEdge | agent_pinboard/models.py:87-89 | the joined text of an edge id determines event, label and target, whatever the label holds |
| Conservation.SerialConserves | agent_pinboard/graph.py:145-171 | over a serial run the reported `new_nodes` add up to the facts gained, and no stored record, its display text included, ever changes |
| Conservation.NewCountIsNewKeys | agent_pinboard/decorator.py:415 | `new_nodes` of an ingest is the number of its keys that the store lacked |
| Conservation.ConcurrentOvercount | agent_pinboard/decorator.py:273-276 | without exclusion, for any number of workers with loads as stale, torn or cut as they may be, the `new_nodes` of a settled run add up to the facts gained, plus the reports of keys the base already had, plus for each key gained its reports minus one; so to at least the facts gained, and exactly that if and only if no key of the base is reported and none is reported twice |
| Overcount.StepKeepsCount | agent_pinboard/decorator.py:415 | at every step of every worker, each key on record or about to be put is one of the base or is reported as new by some worker |
| Locking.SessionLocks.LockFor | agent_pinboard/session.py:48-60 | the lock of a session is created once, is the same ever after, and is shared with no other session |
| Locking.LockedRunsAreSerial | agent_pinboard/decorator.py:231-234 | under any schedule of threads that take the lock, at most one is in its window, and whenever none is the store is that of the finished jobs in the order they left |
| Locking.LockedConserves | agent_pinboard/session.py:48-60 | hence the counts reported by the threads that have left add up to the facts gained, under any schedule |
| Display.TextIsFirst | agent_pinboard/graph.py:145-171 | after any serial run each fact shows the text the run found in the store or, if none, the text of the first sighting of the run |
| Display.NewFactsShowFirst | agent_pinboard/graph.py:157-168 | a fact new to the store is stored under its key with the text of the job's first sighting of it |
| Display.TextsAreSighted | agent_pinboard/store.py:190-202 | under any interleaving, in every reachable state, the text shown for a fact is one the base store showed or some job sighted for that very key |
| Archive.DumpToDict | agent_pinboard/graph.py:325-350 | a dump lists every node and every edge once, and fails if and only if some node carries no object |
| Archive.LoadFromDict | agent_pinboard/graph.py:352-372 | the two errors, in their order, and otherwise the rebuild of the payload's own lists, a missing one alone being empty; any dump of a coherent graph loads back to it up to times and order, and of a loaded graph to that very graph |
| Archive.RoundTrip | agent_pinboard/graph.py:325-372 | rebuilding from any dump of a coherent graph gives it back: nodes, edges, indices, fixed fields, provenance as sets |
| Archive.LoadedRoundTrip | agent_pinboard/graph.py:325-372 | for a graph that came from a load it gives back that very graph, times and order included |
| Archive.DumpAgain | agent_pinboard/graph.py:325-372 | dumping the loaded graph again lists the same records and edges |
| Archive.LoadedCanBeDumpedIff | agent_pinboard/graph.py:337-339 | a loaded graph cannot be dumped if and only if some stored edge lacks one of its ends |
| Queries.FactsAllListedIff | agent_pinboard/graph.py:221-228 | `all_facts` lists every fact if and only if no fact has the reserved type; `all_events` is always exact |
| Queries.ReservedTypeIsLost | agent_pinboard/graph.py:221-228 | after any ingest that sees a fact of type "Event", on any well-formed store, the loaded graph is coherent and has the fact, and `all_facts` does not list it |
| Counterexamples.ReservedEntityIsLost | agent_pinboard/entity.py:30-34 | the input that shows it: one item with two scalars of an entity named "Event", ingested into the empty store |
| Queries.AllFacts | agent_pinboard/graph.py:221-228 | the nested loops yield the facts listed under some other type than the reserved one |
| Queries.AllEvents | agent_pinboard/graph.py:213-219 | the loop yields the events listed under the reserved type |
| Traversal.Explore | agent_pinboard/tools.py:465-495 | uncut, the search finds exactly the nodes within depth; cut, it has exactly max(1, max_nodes) nodes, none of them farther than one left out; and it is cut if and only if that many are within depth. With events visible, from a fact of a coherent graph, OUT finds nothing and an uncut IN exactly the events with an edge to it |
| Traversal.CoherentIsWhole | agent_pinboard/store.py:181-187 | a coherent graph, as an atomic load gives, has every object the tools look up: their precondition holds |
| Traversal.ExploreRound | agent_pinboard/tools.py:472-491 | one level adds only neighbours of the frontier, all of them unless the cap stops it |
| Traversal.Neighbours | agent_pinboard/tools.py:528-578 | told by the edges alone: OUT yields the ends of the node's edges, IN the starts of those into it, BOTH both; with events skipped, from a fact the other targets of the events it lists and the graph holds, from an event its targets |
| Traversal.FactNeighbours | agent_pinboard/tools.py:543-557 | with events transparent a fact's neighbours are the other facts of the events it lists and the graph holds |
| Reach.BallIsWalks | agent_pinboard/tools.py:472-491 | being within k hops, as the search computes it, is having a walk of at most k hops, and then a simple one |
| PathFinding.CoherentIsStar | agent_pinboard/graph.py:287-319 | a coherent graph is a star: its edges run from events to facts, and each fact lists the events of its edges |
| PathFinding.DistancesDouble | agent_pinboard/tools.py:670-716 | between facts, n hops of the whole undirected topology reach exactly as far as n / 2 hops of the fact view |
| PathFinding.ExploreViewsAgree | agent_pinboard/tools.py:528-578 | uncut `explore` to depth d with events skipped and to depth 2d without, both directions, finds the same facts |
| PathFinding.FindPathMeetsExplore | agent_pinboard/tools.py:590-716 | `find_path` within d hops of the projection, within 2d of the topology, and `explore` to depth d succeed together, and the topology's shortest path is twice as long |
| PathFinding.BuildPathGraph | agent_pinboard/tools.py:670-716 | the projection joins two nodes if and only if two edges of one event lead to them; otherwise adjacency is that of the topology, undirected |
| PathFinding.SelectPaths | agent_pinboard/tools.py:604-611 | the loop keeps the leading paths up to the first that is too long or until there are enough |
| PathFinding.SelectionIsShortest | agent_pinboard/tools.py:604-616 | from an enumeration of simple paths by length that is the `top` shortest within depth, some path if and only if the target is within depth, the first a shortest |
| PathFinding.ElisionNotice | agent_pinboard/tools.py:521-524 | the notice that nodes were elided is right if and only if the number of nodes within depth differs from the cap |
| PathFinding.ElisionNoticeWrong | agent_pinboard/tools.py:482-484 | in the graph loaded from a store of one event with two facts, exploring from one fact to depth 1 with a cap of 1 finds everything and still gets the notice |
| Registry.EntityRegistry.RegisterModel | agent_pinboard/registry.py:37-45 | on any, also cyclic, model graph the scan ends; it fails if and only if a reachable model marks a model-typed field, otherwise exactly the names of the entities on marked fields of reachable models are added; no earlier entry changes |
| Registry.EntityRegistry.Scan | agent_pinboard/registry.py:48-62 | one call enters, follows up and registers exactly the models not seen before |
| Registry.EntityRegistry.RegisterEntity | agent_pinboard/registry.py:90-104 | the first declaration of a name wins, with its location |
| Registry.RejectedWouldDescend | agent_pinboard/registry.py:81-125 | a node field is rejected if and only if the scan would descend into it were it unmarked |
| Registry.NestedModelsOccur | agent_pinboard/registry.py:107-125 | a model is listed for an annotation if and only if it occurs in it at some depth of arguments |
| Registry.SchemaGraphIs | agent_pinboard/registry.py:48-87 | the scan goes from a model to exactly those that occur in its unmarked fields, and rejects it if and only if a model occurs in a marked one |
| ToolLog.LastMatching | agent_pinboard/decorator.py:622-633 | the reversed loop finds the last successful record of the pair, or there is none |
| ToolLog.Summary | agent_pinboard/decorator.py:530-534 | the summary of a success says each count with its word, in decimals, and never reads as a duplicate or an error |
| ToolLog.DecimalReads | agent_pinboard/decorator.py:530-534 | the decimal text of a count reads back as the count |
| ToolLog.ToolCallLog.LoadToolCalls | agent_pinboard/store.py:210-214 | stored records in order of time, all of them within the scan limit |
| ToolLog.ToolCallLog.FindDuplicate | agent_pinboard/decorator.py:545-551 | within the scan limit a duplicate is found if and only if the log holds a success of the pair, and it is the latest |
| ToolLog.ToolCallLog.PersistToolCall | agent_pinboard/store.py:205-207 | the record is put under its time and tool |
| Calls.Validate | agent_pinboard/decorator.py:364-384 | told by the raw value: the list error if and only if `many` is set and it is no list, the error of item j if and only if j is the first invalid one, otherwise the items in order |
| Calls.Session.SyncCall | agent_pinboard/decorator.py:208-249 | within the scan limits the wrapper computes the specified next state and the one right reply: the time of the latest success if suppressed, the validation error, the error of the first value that ends the extraction, or the summary of exactly what was ingested; the log gains the one record that goes with it; a rejected call leaves store and log as they were, a suppressed or raising one leaves the store, limits or not |
| Calls.AnswerCountsGain | agent_pinboard/decorator.py:231-247 | the new nodes of an answer are the facts the store gained |
| Calls.Session.IngestWindow | agent_pinboard/decorator.py:231-234 | load, build and persist: all of the delta or none of it |
| Calls.IngestsOrNothing | agent_pinboard/decorator.py:229-234 | a call whose tool ran is ingested if and only if everything it returned is valid and no value at any depth is refused or makes its normalizer raise; otherwise nodes, edges and log are unchanged |
| Calls.SuppressionIsExact | agent_pinboard/decorator.py:545-569 | in any run, a call is suppressed if and only if it is under SKIP or CACHE and the pair was ingested earlier; it then adds one record and leaves nodes and edges alone |
| Calls.IngestsAtMostOnce | agent_pinboard/decorator.py:622-633 | once a pair was ingested no later call of it under SKIP or CACHE is |
| Calls.RunIsSerial | agent_pinboard/decorator.py:208-249 | the nodes and edges after any run of calls are those of the executed jobs ingested one after another |
| Overlap.SuppressedIffLogged | agent_pinboard/decorator.py:545-569 | however calls overlap, one is suppressed if and only if it is under SKIP or CACHE and a success of its pair was logged before it read the log |
| Overlap.IngestsAgainOnlyIfEarly | agent_pinboard/decorator.py:213-249 | a call under SKIP or CACHE never ingests if it reads the log after a success of its pair was put there |
| Overlap.BothIngest | agent_pinboard/decorator.py:213-249 | any two calls of one pair whose items are sound both ingest, whatever their policies and the store, if both read the log before either logs its success and none was logged earlier |
| Overlap.OverlappingRunIsSerial | agent_pinboard/decorator.py:231-234 | however calls overlap, the nodes and edges are those of the calls that ingested, each once, in the order of their windows |
| Overlap.OneByOneIsRun | agent_pinboard/decorator.py:208-249 | calls that do not overlap do what the sequential model of a run says |
| StreamHook.QueueIsLast | agent_pinboard/integrations/websocket_hook.py:112-189 | over any run of enqueues and drains the queue is the last `maxsize` messages since the last drain, in order; all of them when it is not positive |
| StreamHook.NothingDroppedIff | agent_pinboard/integrations/websocket_hook.py:175-189 | between two drains nothing is lost if and only if there is no bound or the messages fit in it |
| StreamHook.WebSocketHook.Enqueue | agent_pinboard/integrations/websocket_hook.py:175-189 | a full queue drops its oldest message |
| StreamHook.WebSocketHook.DrainPending | agent_pinboard/integrations/websocket_hook.py:112-119 | the loop hands over every queued message in order and leaves none |
| StreamHook.WebSocketHook.HandleIngest | agent_pinboard/integrations/websocket_hook.py:146-173 | events, new facts, one link message per linked fact with the first event's id, edges and the closing summary with the three counts are queued in that order, the last `maxsize` messages staying; the snapshot is replaced unless the graph has a node without an object |
| StreamHook.BuildSnapshot | agent_pinboard/integrations/websocket_hook.py:329-345 | a snapshot shows every node and edge of the graph; it fails if and only if some node carries no object |
| LateJoiner.LateJoinerConverges | examples/web/index.html:188-210 | a page started from the snapshot after t ingests and sent every message from some ingest s <= t on shows after u ingests exactly the nodes and edges of the store, and each edge finds both ends on the page when it arrives |
| Joining.JoinConvergesIff | agent_pinboard/integrations/websocket_hook.py:257-262 | a page that connects after t ingests starts from the snapshot, or blank if no ingest has gone through yet; sent the stream from any single message on it ends on the whole store if and only if it was sent a snapshot or the store was empty to begin with, and it missed no message of a later batch that announces a node |
| Joining.JoinWhileRunning | agent_pinboard/integrations/websocket_hook.py:257-287 | with messages queued one at a time, drains in between, a queue that never overflows and a page that connects at any point, the page ends on the whole store if and only if it was sent a snapshot or the store was empty to begin with, and nothing drained before it connected announces a node of a batch its snapshot does not cover |
| Counterexamples.TornBatchIsLost | agent_pinboard/integrations/websocket_hook.py:206-207 | for any run and any cut that leaves a node of a later batch before it, the schedule that drains up to the cut, then connects the page, then drains the rest ends on another page than the store's |
| Counterexamples.EveryBatchCanBeTorn | agent_pinboard/integrations/websocket_hook.py:155-158 | the batch of every ingest of at least one item has such a cut, after its first message |
| Overflow.JoinUnderOverflow | agent_pinboard/integrations/websocket_hook.py:175-189 | for any queue size, overflowing or not, the page ends on the whole store if and only if it was sent a snapshot or the store was empty to begin with, and each message that announces a node or an edge of a batch its snapshot does not cover is drained after the page connected, before the queue is full of later messages |
| Overflow.ReceivedIff | agent_pinboard/integrations/websocket_hook.py:112-119 | a page that connects after the first c operations receives a message if and only if some put of it is followed, after that, by a drain with no drain and fewer messages than the queue holds in between |
| Overflow.DrainedIsPart | agent_pinboard/integrations/websocket_hook.py:175-189 | whatever is dropped, what is drained and what is queued together are part of what was put, in its order |
| Overflow.PartConvergesIff | examples/web/index.html:201-210 | a part of the stream takes the page of a store to that of a later one if and only if it holds every node and every edge announced in between |
| LateJoiner.BlankPageConvergesIff | agent_pinboard/integrations/websocket_hook.py:257-262 | a page that was sent no snapshot shows the whole store if and only if the store was empty before the first ingest of the process |
| LateJoiner.SnapshotIsPage | agent_pinboard/integrations/websocket_hook.py:170-173 | the snapshot of the graph an ingest leaves in memory is the page of the persisted store |
| LateJoiner.AnnouncedAreNew | agent_pinboard/integrations/websocket_hook.py:155-158 | the nodes announced as added are exactly those the store gains |

## Left out

- Pydantic, LangChain and LangGraph internals, runtime lookup, the `thread_id` fallback, argument masking and signature inspection: a call comes in as its tool, its argument text and what validation makes of its result.
- The async wrapper and store functions: the same steps as the synchronous ones; their overlap on one event loop is covered by `Protocol` and by `Conservation.ConcurrentOvercount`, since the thread lock does not exclude coroutines.
- Text rendering of the tools, Mermaid output, `search_nodes` globbing and the annotations of paths: the model computes node sets and paths.
- The timeline relevance score: floating-point, and its docstring and code count different neighbours.
- Yen's algorithm: `find_path` assumes an enumeration of the simple paths by length.
- SHA-256 cut to 64 bits, UUID generation, ISO texts and JSON: injective ids, fresh numbers, integers for times.
- Records, edges and log entries read back from the store or a dump are well formed: a dump entry without its keys, which raises, is not modelled.
- Raw-event stashing, entity-registry persistence and the soft-limit warning of the log: single puts and log lines.
- The Langfuse hook, the WebSocket and HTTP server, `configure`, notebooks and page layout: I/O.
- Registry collisions between different entities of one name: the warning is a log line; that the first declaration stays is proved.
- FactGraphs.FactGraph.UpsertFact: one clock reading per item stands for first and last seen, where the source reads the clock at each sighting; no theorem depends on it.
- Traversal.Explore: the read-only tools are stated on the value of a graph that has every node's object, as loads at one instant give; a torn graph makes the source raise.
- PathFinding.SelectionIsShortest: an end point that is missing from the projection, possible only for a fact of the reserved type, is not modelled.
- Joining.JoinWhileRunning: the snapshot is read and sent in one step; a drain between the two is not modelled.
- Overlap.OverlappingRunIsSerial: a window is one step, as `Locking` shows of threads that take the lock, and the log is read at one instant and within the scan limit.
- StreamHook.WebSocketHook.Enqueue: one producer and one consumer at a time; the second attempt to put after a drop therefore always succeeds.
- Incremental.IncrementalEqualsRecomputed: first and last seen differ by design between memory (clock at the sighting) and reload (event time), and are not compared.
- Locking.LockedRunsAreSerial: each thread enters its window once, so reentrance does not arise.
