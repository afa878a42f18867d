# Verified models of the alerting backend's stateful cores

This project models the parts of the alerting and workflow backend whose behaviour comes from state, order or
careful text handling, and proves what they promise: over whole runs, for all inputs, or exactly when. Each file
is one module (`Sse.dfy` holds three) and follows one source file, or one part of it.

- `Scheduler.dfy` — the event-workflow protocol. Producers append under a lock, the drain swaps the queue out and
  takes item by item, a table of executions rejects a second running row with the same workflow and number,
  collisions are requeued, finished or dropped by strategy, workers run and finish rows. Every interleaving of the
  atomic steps is a run; the class `WorkflowScheduler` carries out the drain, a worker and a manual call step by
  step, with arbitrary steps of the other threads in between, and is proved to be such a run.
- `ErrorStormGuard.dfy` — window, per-key count and LRU cap on one ordered map.
- `RulesEngine.dfy` — passes of the correlation rules: matching sub-rules, the history of an incident, the
  incident's visibility and the workflow events sent about it. `SubRules.dfy` — the sub-rule splitter.
- `DeepMerge.dfy` — the deep merge on the heap: mutable dicts are copied, each once, and the copy is written into.
  `MergedValues.dfy` — what a merge comes to, as a function on values, and its laws. `DictStore.dfy` — what the
  in-place merge does to a store of dicts, `SharedDicts.dfy` — when that is the merge of values, although a dict may
  be found in several places, and `CopiedDicts.dfy` — what copying keeps of such places.
- `IncidentReports.dfy` — groups of recurring incidents along links to the past; shortest and longest durations.
- `StepRunner.dfy` — a workflow step over the items of a foreach with retries, and the context it writes to.
- `Sse.dfy` — the broadcaster of server-sent events under every interleaving of subscribers, notifiers and
  disconnects, the text format read back by the parsing rules of section 9.2 of the WHATWG HTML Standard, and the
  two together: what a client makes of its subscription.
- `TriggerFilters.dfy` — the translation of workflow filters to CEL text, against `Cel.dfy`: a recursive-descent
  parser with CEL's precedence and a three-valued evaluator for the fragment that is printed. `FilterForms.dfy` — what
  each form of a filter means, in terms of the words it is written with.
- `CallScanner.dfy` — the index-driven scanner for `keep.` calls against a recursive lexer. `Escaping.dfy` — the
  two passes that insert backslashes.
- `SqlTemplate.dfy` — placeholder replacement, one key at a time from the last, against simultaneous substitution.
- `Strings.dfy` — find, replace, split and join; `Options.dfy` — a value or nothing.

Loops and objects of the source are methods and classes; each is proved equal to a specification function, and the
lemmas are about that function. What a database, a clock, a provider, a hash or an evaluator answers is a parameter.

Some documented promises hold only under a condition the code does not check. There the code is followed and the
exact condition is proved:

- `DocumentedRateIff`: the storm guard's documented "at most N times per window" (error_storm_guard.py:52-54) holds
  in every sliding window exactly when N is 1; the tight sliding bound is 2N - 1.
- `ExclusiveIff`: one running execution per workflow and fingerprint, exactly for non-empty fingerprints.
- `OwnMatchesIff`: in a pass of the rules an unexpected `ValueError` leaves the variable with the last matches as it
  was (rulesengine.py:93-112), so an event can open an incident on matches that are not its own
  (`StaleMatchesOpen`, `LeftoverOpensTwo`); every visit carries its own event's matches exactly when no such error
  comes up while the matches left over are not empty. Before any check has returned matches,
  such an error ends the pass.
- `RightQuotesIff`: escape positions counted from the start of the text are used from the start of the token
  (iohandler.py:183-196), right exactly when there are none or the token starts the text; `WrongQuoteShows` is a
  template for which the scanner returns such a token.
- `FlippingNegatesIff`: `exclude` is ignored for `.*` (workflowmanager.py:225-226).
- `TranslationMeansIff`: for `.*` the translator writes `has(key)`, and by the CEL specification `has` takes a field
  of something; the text is CEL exactly when every `.*` is on a key with a dot.
- `ConditionsMetIff`: a rule with a sub-rule that mentions `null` never meets its history conditions
  (rulesengine.py:509-510), even for an alert that satisfies it (`NullIsNeverMet`).
- `ShortestIsMinIff`, `LongestIsMaxIff`: a zero duration counts as "not set" (incident_reports.py:262, 266), so that
  of 0 and 5 seconds the shortest is 5 (`ZeroIsForgotten`).
- `PathLawIff`: items of a source list beyond the destination's list are merged into a throwaway dict
  (parser.py:914-919); the path law holds exactly when no leaf is lost that way.
- `DeepMergeIff`: actions are read from YAML, whose aliases give one dict object in several places (parser.py:714,
  741), and a deep copy keeps that. What is merged in one place then shows in the others: the result stands for the
  merge of values, for every source that has one, exactly when no dict that merging can come to is found in the
  destination a second time. `SharedDictShowsThrough` runs the merge on such a destination; in `SourceIsWrittenTo`
  the merge goes on into a dict of the source.
- `AssociativeIff`: three layers give the same in either order, whatever the lowest one is, exactly when laying the
  top one over the middle one is harmless; `OrderMatters` has three layers that do not.

## Model

| member | source | states |
|---|---|---|
| `Scheduler.ExclusiveIff` | src/workflowmanager/workflowscheduler.py:355-372 | In every interleaving at most one row made for a non-parallel strategy runs per workflow and fingerprint, and this holds for a fingerprint if and only if it is not empty |
| `Scheduler.NumberedAlways` | src/workflowmanager/workflowscheduler.py:499-523 | In every run, running rows have distinct (workflow, number) pairs, and a non-parallel row with a fingerprint carries the number computed from the pair |
| `Scheduler.TwoAtOnce` | src/workflowmanager/workflowscheduler.py:366-369 | The run that breaks exclusion for the empty fingerprint |
| `Scheduler.HeldUp` | src/workflowmanager/workflowscheduler.py:524-571 | While a row for the pair runs, no other is made; the item is then kept for requeueing, failing or dropped, by strategy |
| `Scheduler.HeldUpByHash` | src/workflowmanager/workflowscheduler.py:362-372 | A row made for one fingerprint makes the creation for another be refused when their hashes agree modulo 2^31, and if it is the workflow's only running row, only then |
| `Scheduler.CreatedIff` | src/workflowmanager/workflowscheduler.py:499-571 | A row is made, with its number, if and only if no running row of the workflow has that number, which is a random one under PARALLEL or without a fingerprint and else the hash of fingerprint and workflow, modulo 2^31 |
| `Scheduler.ParallelIff` | src/workflowmanager/workflowscheduler.py:504-511 | Under PARALLEL the row is made with a random number, unless a running row of the workflow happens to have it |
| `Scheduler.TwoInParallel` | src/workflowmanager/workflowscheduler.py:504-506 | A run in which two executions of one workflow and one fingerprint run under PARALLEL |
| `Scheduler.PlacedAlways` | src/workflowmanager/workflowscheduler.py:408-647 | In every run each execution id that was made is in exactly one of: handed over, queued, in the batch, in hand, with a worker, finished; its row runs exactly while it is unfinished |
| `Scheduler.FinishedOnce` | src/workflowmanager/workflowscheduler.py:710-740 | Each execution is finished at most once, and exactly once as soon as no path leads to its finish any more |
| `Scheduler.MeteredAlways` | src/workflowmanager/workflowscheduler.py:199-262 | The status counter equals the number of finishes, the gauge the number of workers between entering and leaving a run |
| `Scheduler.NothingIsLost` | src/workflowmanager/workflowscheduler.py:408-647 | Every enqueued event is, as often as it was enqueued, still waiting, submitted, finished without running, or dropped |
| `Scheduler.FirstInFirstOut` | src/workflowmanager/workflowscheduler.py:408-647 | In every interleaving the items taken, then those in the batch, then those in the queue are all that were ever appended, in that order |
| `Scheduler.OnlyCollisions` | src/workflowmanager/workflowscheduler.py:524-547 | When collisions are the only failures and every workflow retries, enqueued equals waiting plus submitted, with producers appending at any time |
| `Scheduler.RetryingAlways` | src/workflowmanager/workflowscheduler.py:524-547 | Under those conditions nothing is ever rejected, dropped or failing |
| `Scheduler.OthersKeep` | src/workflowmanager/workflowscheduler.py:412-413 | No step of another thread touches what a drain, a worker or a manual call holds |
| `Scheduler.WorkflowScheduler.constructor` | src/workflowmanager/workflowscheduler.py:79-97 | Starts in the initial state |
| `Scheduler.WorkflowScheduler.SwapOut` | src/workflowmanager/workflowscheduler.py:412-413 | Takes the whole queue and leaves it empty, in one step |
| `Scheduler.WorkflowScheduler.TakeNext` | src/workflowmanager/workflowscheduler.py:414-475 | Takes the next item; a carried workflow is used, another is loaded |
| `Scheduler.WorkflowScheduler.CreateWorkflowExecution` | src/workflowmanager/workflowscheduler.py:499-574 | IntegrityError if and only if a running row has the workflow and number, and which number that is; what then becomes of the item |
| `Scheduler.WorkflowScheduler.AddBack` | src/workflowmanager/workflowscheduler.py:537-547 | Appends the item without its workflow, as a retry |
| `Scheduler.WorkflowScheduler.Refresh` | src/workflowmanager/workflowscheduler.py:583-629 | A retry is refreshed or fails with its execution |
| `Scheduler.WorkflowScheduler.SubmitRun` | src/workflowmanager/workflowscheduler.py:630-642 | The execution goes to the workers |
| `Scheduler.WorkflowScheduler.FinishItem` | src/workflowmanager/workflowscheduler.py:447-475 | Finishes the item in hand |
| `Scheduler.WorkflowScheduler.HandleEventWorkflows` | src/workflowmanager/workflowscheduler.py:408-647 | A drain ends, and takes each item that was queued at the swap exactly once and in order, although it requeues and others append meanwhile |
| `Scheduler.WorkflowScheduler.HandleItem` | src/workflowmanager/workflowscheduler.py:414-642 | One item is taken and then submitted, requeued, dropped, or finished with the status of what failed: a workflow that is missing or cannot be loaded, a collision, a retry that cannot be refreshed |
| `Scheduler.WorkflowScheduler.RunWorkflow` | src/workflowmanager/workflowscheduler.py:184-282 | Whatever the others do, the execution is finished by its worker, once, with the status of its run |
| `Scheduler.WorkflowScheduler.HandleManualEventWorkflow` | src/workflowmanager/workflowscheduler.py:284-353 | Raises if and only if the row is rejected or its creation breaks, and else appends the item with its execution, whose row has a random number |
| `StormGuard.LruExact` | src/common/event_management/error_storm_guard.py:98-128 | After any run the map's keys, in order, are the newest entries of the recency list, never more than the cap |
| `StormGuard.RecencyIsByLastUse` | src/common/event_management/error_storm_guard.py:107-118 | The recency list holds the keys called since the last clear, sorted by last call |
| `StormGuard.LargeCapUnnoticed` | src/common/event_management/error_storm_guard.py:121-124 | Until more keys are live than the cap allows, the guard is in the state of one with any larger cap |
| `StormGuard.SameAnswersWithLargerCap` | src/common/event_management/error_storm_guard.py:98-124 | and so gives the same answers |
| `StormGuard.CellsAreEarned` | src/common/event_management/error_storm_guard.py:103-115 | Every cell's window began at a call, and it counts no more writes than were allowed since |
| `StormGuard.NeverFalselySuppresses` | src/common/event_management/error_storm_guard.py:55-57 | A suppressed write always follows a full cap of allowed ones less than a window earlier, evictions and clears included |
| `StormGuard.SlidingRate` | src/common/event_management/error_storm_guard.py:98-119 | A key that stays in the map gets at most 2 cap - 1 writes through in any half-open window |
| `StormGuard.RateFromWindowStart` | src/common/event_management/error_storm_guard.py:98-119 | From a window start, at most cap (floor(T/W) + 1) in time T |
| `StormGuard.SlidingRateIsTight` | src/common/event_management/error_storm_guard.py:98-119 | A run that attains 2 cap - 1, for every cap |
| `StormGuard.DocumentedRateIff` | src/common/event_management/error_storm_guard.py:52-54 | The documented bound holds over all runs if and only if the cap is one |
| `StormGuard.ErrorStormGuard.constructor` | src/common/event_management/error_storm_guard.py:60-81 | Starts empty |
| `StormGuard.ErrorStormGuard.ShouldRecord` | src/common/event_management/error_storm_guard.py:98-119 | Answer and new map are those of the specification |
| `StormGuard.ErrorStormGuard.EvictIfNeeded` | src/common/event_management/error_storm_guard.py:121-124 | Popping the oldest until it fits leaves the newest ones |
| `StormGuard.ErrorStormGuard.Clear` | src/common/event_management/error_storm_guard.py:126-128 | Empties the map |
| `RulesEngine.EveryStoryIsProper` | src/rulesengine/rulesengine.py:151-243 | Over any sequence of passes: no workflow event while an incident is invisible, then one "created" unless somebody else approved it, then only "updated" |
| `RulesEngine.OpeningsAreCreated` | src/rulesengine/rulesengine.py:227-243 | The counter of opened incidents equals the number of "created" events |
| `RulesEngine.VisibilityNeverReverts` | src/rulesengine/rulesengine.py:166-197 | A visible incident stays visible |
| `RulesEngine.OpensIff` | src/rulesengine/rulesengine.py:166-197 | A visit, whatever matches it carries, makes an incident visible if and only if it found or made it invisible and the threshold is reached, no approval is needed, and the carried matches or the history suffice; otherwise only a new incident can be visible, from the start |
| `RulesEngine.NewIncidentIff` | src/rulesengine/rulesengine.py:123-150 | A visit without a stored, unexpired incident makes a new one if and only if the alert fires and is not back from maintenance with a resolved alert later than it; else it does nothing |
| `RulesEngine.AfterMaintenance` | src/rulesengine/rulesengine.py:141-150 | A firing alert back from maintenance at 10 makes none when one was resolved at 20, and makes one when at 5 |
| `RulesEngine.AnyOpensIff` | src/rulesengine/rulesengine.py:166-197 | Where any match is enough, a stored invisible incident is made visible if and only if no approval is needed and the number of its alerts, or the sum of how often they are unresolved, reaches the threshold |
| `RulesEngine.FiringCountIsSum` | src/rulesengine/rulesengine.py:171-176 | The alerts count as often as each is unresolved, and once where that is not known |
| `RulesEngine.VisitSends` | src/rulesengine/rulesengine.py:199-243 | "created" about the incident the visit makes visible, "updated" about one that was visible before, nothing else; the counter grows with each "created" |
| `RulesEngine.VisitRaisesIff` | src/rulesengine/rulesengine.py:166-197 | A visit raises if and only if the incident, found or made, is invisible, its threshold is reached, no approval is needed, the matches do not suffice, and the review of the history raises |
| `RulesEngine.VerdictIff` | src/rulesengine/rulesengine.py:181-194 | Yes, no or an exception, in terms of counts, matches and the history conditions |
| `RulesEngine.OwnMatchesAll` | src/rulesengine/rulesengine.py:183-186 | With its own matches, as many of them as sub-rules means that the event satisfies every sub-rule |
| `RulesEngine.NeverOpenedEarly` | src/rulesengine/rulesengine.py:181-197 | In every run, a visit that makes an incident visible has reached the threshold and needs no approval, unless the incident is new and visible from the start |
| `RulesEngine.OwnMatchesIff` | src/rulesengine/rulesengine.py:93-112 | In a pass every visit carries its own event's matches if and only if no check the pass comes to ends in an unexpected ValueError while non-empty matches are left over |
| `RulesEngine.StaleMatchesOpen` | src/rulesengine/rulesengine.py:93-112 | An event whose own check raised opens an incident on the matches left over |
| `RulesEngine.LeftoverOpensTwo` | src/rulesengine/rulesengine.py:93-112 | A pass over one rule and two alerts in which that happens |
| `RulesEngine.ConditionsMetIff` | src/rulesengine/rulesengine.py:385-422 | The history conditions are met if and only if some first alerts, none of which raises, satisfy every sub-rule and none mentions null; the review raises if and only if an alert that raises comes before that |
| `RulesEngine.NullIsNeverMet` | src/rulesengine/rulesengine.py:509-510 | A rule and an alert that satisfies it, with which the history conditions are not met because the rule mentions null |
| `RulesEngine.MatchedMeans` | src/rulesengine/rulesengine.py:486-538 | The matches are the satisfied sub-rules as rewritten; as many as there are sub-rules if and only if all are satisfied |
| `RulesEngine.OneRuleMatches` | src/rulesengine/rulesengine.py:505-536 | One sub-rule by the answer of its evaluation: null is replaced first, a missing member is no match, a type mismatch is one when coercion settles it, the rest raises |
| `RulesEngine.MatchedInOrder` | src/rulesengine/rulesengine.py:505-538 | The first sub-rule that raises decides, and otherwise the matches come one after another |
| `RulesEngine.NoNullLeft` | src/rulesengine/rulesengine.py:509-510 | Replacing null leaves no null, across the seams too |
| `RulesEngine.CheckIfRuleApply` | src/rulesengine/rulesengine.py:486-538 | The loop over sub-rules with its exceptions |
| `RulesEngine.ReviewHistory` | src/rulesengine/rulesengine.py:385-413 | The union over the alerts with its early exit |
| `RulesEngine.PassLeads` | src/rulesengine/rulesengine.py:74-243 | A whole pass is a sequence of visits, so the lemmas on runs hold of it, also when it is cut short by an exception |
| `RulesEngine.PassVisits` | src/rulesengine/rulesengine.py:74-125 | A pass that is not cut short and uses no left-over matches makes exactly the visits that are due, rule by rule, event by event, fingerprint by fingerprint |
| `RulesEngine.PassRaisesIff` | src/rulesengine/rulesengine.py:93-112 | A pass is cut short if and only if it comes to an event whose check ends in an unexpected ValueError with nothing left over, or to a fingerprint whose visit, with the event's own or the left-over matches, raises |
| `RulesEngine.LeftOverIs` | src/rulesengine/rulesengine.py:93-112 | What is left over when a pass comes to an event are the matches of the latest check before it that returned any, if only an empty list |
| `RulesEngine.RulesEngine.GetOrCreateIncident` | src/rulesengine/rulesengine.py:281-383 | The stored incident if it is not expired, a new one if creation is allowed and the alert fires, else none |
| `RulesEngine.RulesEngine.OpenIfDue` | src/rulesengine/rulesengine.py:171-194 | Sets the incident visible under exactly the rule's conditions |
| `RulesEngine.RulesEngine.SeeFingerprint` | src/rulesengine/rulesengine.py:119-243 | One fingerprint: visibility, events and counter |
| `RulesEngine.RulesEngine.RunRuleOnEvent` | src/rulesengine/rulesengine.py:89-248 | One rule on one event, with the lingering matches after a ValueError |
| `RulesEngine.RulesEngine.RunCelRules` | src/rulesengine/rulesengine.py:74-257 | The nested loops of a pass |
| `SubRules.RoundTripIff` | src/rulesengine/rulesengine.py:424-438 | Splitting a joined definition gives its sub-rules back if and only if there are at least two and none holds the separator |
| `SubRules.NoExtractedSeparator` | src/rulesengine/rulesengine.py:424-438 | No extracted sub-rule holds the separator |
| `Strings.SplitJoined` | src/rulesengine/rulesengine.py:428 | Splitting what was joined by a borderless separator gives the parts back |
| `MergedValues.PathLawIff` | src/parser/parser.py:888-921 | Along every path the result has the source's leaf, or nothing below a source leaf, or else the destination's leaf, if and only if no leaf of the source lies in a list item the destination has no counterpart for |
| `MergedValues.RaisesIff` | src/parser/parser.py:905-921 | Merging raises if and only if the two clash at some path both have |
| `MergedValues.EmptyIsIdentity` | src/parser/parser.py:905-921 | The empty dict is a two-sided identity |
| `MergedValues.SelfMergeIff` | src/parser/parser.py:905-921 | A value merged with itself is itself if all its lists are lists of dicts, and raises otherwise |
| `MergedValues.SecondMergeChangesNothing` | src/parser/parser.py:905-921 | Merging the same source again changes nothing, where it is defined |
| `MergedValues.AssociativeIff` | src/parser/parser.py:905-921 | Over every third layer for which both orders are defined, two layers merge to the same in either order if and only if none but empty items of the top one's lists get lost where the middle one's list is too short or is an empty dict, or that list holds an item that is no dict |
| `MergedValues.Associative` | src/parser/parser.py:905-921 | In particular where the middle layer has a list, at least as long, for every list of the top one that meets something |
| `MergedValues.OrderMatters` | src/parser/parser.py:914-919 | Three layers that merge differently in the two orders because an item is lost |
| `DictStore.MergeIsOver` | src/parser/parser.py:905-921 | Where no dict that merging can come to is found a second time, merging in place raises exactly when the merge of values does, and else makes the value stand for that merge, writes only to dicts it can come to, and never to the source; in whatever order the source's keys come |
| `DictStore.NotInItself` | src/parser/parser.py:901 | What stands for a value has no dict inside itself |
| `SharedDicts.RightIff` | src/parser/parser.py:905-921 | Merging in place leaves what stands for the merge of values, for every source that has one, if and only if no dict that merging can come to is found in the destination a second time |
| `SharedDicts.ApartIffNoDictTwice` | src/parser/parser.py:914-919 | That is so when no dict is found twice at all, and only then if no list is an item of a list |
| `SharedDicts.SourceIsWrittenTo` | src/parser/parser.py:908-921 | With one dict under two keys, two dicts put in under the same key of it are merged into each other, whichever comes first, and one of them is the source's |
| `CopiedDicts.CopyStands` | src/parser/parser.py:901 | A copy with one new dict for each old one stands for the same value |
| `CopiedDicts.CopyApart` | src/parser/parser.py:901 | and has a dict in a second place if and only if the original has |
| `CopiedDicts.DeepMergeIff` | src/parser/parser.py:888-903 | Merging into the copy is right for every source that has a merge if and only if no dict of the destination that merging can come to is found in it a second time |
| `DeepMerge.DeepMerge` | src/parser/parser.py:888-903 | The destination is left as it was; the result is its copy, on new dicts, after the merge in place; where no dict that merging can come to is found a second time, it stands for the merge of values, and raises exactly when that does |
| `DeepMerge.MergeInto` | src/parser/parser.py:905-921 | Does to the dicts what merging does to the store, or raises as that does |
| `DeepMerge.MergeIntoDict` | src/parser/parser.py:908-921 | The loop over the keys, in the source's order |
| `DeepMerge.MergeEntryInto` | src/parser/parser.py:910-921 | One key: merged where the destination has it too and the value is a dict or a list, else written |
| `DeepMerge.MergeListInto` | src/parser/parser.py:914-919 | A list against a list, a dict, a text or anything else |
| `DeepMerge.MergeItemsInto` | src/parser/parser.py:916-919 | The loop over the items |
| `DeepMerge.Copy` | src/parser/parser.py:901 | A deep copy makes one new dict for each dict, the same one wherever that is found, and leaves the old ones alone |
| `DeepMerge.CopyDict` | src/parser/parser.py:901 | A dict that has been copied is not copied again |
| `DeepMerge.SharedDictShowsThrough` | src/parser/parser.py:901-912 | deep_merge of {"p": {"x": 1}} into {"p": d, "q": d}, with d empty, puts x under q as well; the merge of values does not |
| `IncidentReports.AllWalksEndIffAcyclic` | src/common/bl/incident_reports.py:284-309 | The walk ends from every incident if and only if the links have no cycle |
| `IncidentReports.GroupsDisjoint` | src/common/bl/incident_reports.py:297-305 | Groups of different roots share no incident |
| `IncidentReports.SecondMember` | src/common/bl/incident_reports.py:297-305 | A root's group has two members if and only if some incident with a past ends at it |
| `IncidentReports.GroupIsMembers` | src/common/bl/incident_reports.py:300-304 | What the walks add up to is the set of incidents whose chain ends at the root |
| `IncidentReports.GroupComplete` | src/common/bl/incident_reports.py:277-319 | A root is grouped if and only if it has at least two members, and with all of them |
| `IncidentReports.LeavingHasNoRoot` | src/common/bl/incident_reports.py:290-291 | A chain that leaves the known incidents ends at no root |
| `IncidentReports.Walk` | src/common/bl/incident_reports.py:282-309 | The root found and the path of the chain, or nothing |
| `IncidentReports.Group` | src/common/bl/incident_reports.py:280-309 | The dictionary of groups over all incidents |
| `IncidentReports.RecurringIncidents` | src/common/bl/incident_reports.py:277-319 | One report per root with at least two members, with their number |
| `IncidentReports.CalculateDurations` | src/common/bl/incident_reports.py:245-275 | The loop's shortest and longest durations, and the incidents they are kept with |
| `IncidentReports.OneMoreIncident` | src/common/bl/incident_reports.py:257-261 | An incident with an end counts from its start time, or from its creation where it has none; one without an end does not count |
| `IncidentReports.FirstShortest` | src/common/bl/incident_reports.py:262-264 | Of several shortest incidents the first is reported, when no duration is zero |
| `IncidentReports.FirstLongest` | src/common/bl/incident_reports.py:266-268 | Of several longest incidents the first is reported, when no duration is zero |
| `IncidentReports.ShortestIsMinIff` | src/common/bl/incident_reports.py:262-264 | The shortest is the minimum if and only if no duration is zero, or the last one is, or one is negative |
| `IncidentReports.ZeroIsForgotten` | src/common/bl/incident_reports.py:262-268 | Of 0 and 5 seconds the reported shortest is 5, of 0 and -1 the reported longest is -1 |
| `IncidentReports.LongestIsMaxIff` | src/common/bl/incident_reports.py:266-268 | The longest is the maximum if and only if one is positive, or none is zero, or the last one is; always without negative ones |
| `StepRunner.StoredAfter` | src/step/step.py:127-155 | After a foreach the step's results are the old list and then the new outputs; other steps are untouched |
| `StepRunner.OutputIff` | src/step/step.py:157-381 | An item has an output if and only if its condition holds, it is not throttled, its parameters render and an attempt succeeds; it is that of the first such attempt |
| `StepRunner.OutputsInItemOrder` | src/step/step.py:134-151 | One output per successful item, in the order of the items |
| `StepRunner.CallsBounded` | src/step/step.py:337-371 | At most items times (retries + 1) provider calls |
| `StepRunner.CallsAre` | src/step/step.py:337-371 | An item that reaches its provider has it called until an answer is stored, and otherwise retries + 1 times |
| `StepRunner.SeenIsOwnValue` | src/step/step.py:134-135 | Each provider call for an item sees that item's own value as foreach.value; the calls come item by item |
| `StepRunner.RecordAfter` | src/step/step.py:157-381 | After a foreach the step's record has its variables and the provider parameters rendered for the last item that ran |
| `StepRunner.FirstSuccessIsFirst` | src/step/step.py:337-371 | Every attempt before the one that counts raised |
| `StepRunner.Step.RunForeach` | src/step/step.py:127-155 | Stored results, provider calls with the value each one saw (`SeenIsOwnValue`), the return value, and the reset foreach context |
| `StepRunner.Step.RunSingle` | src/step/step.py:157-381 | One item: the table of steps it leaves, its calls, whether it ran, and that it raises if and only if its condition does, or that holds and the throttle raises, or it is not throttled and rendering, every attempt, storing or exposing fails |
| `StepRunner.Step.Attempts` | src/step/step.py:337-371 | The retry loop |
| `StepRunner.ContextManager.SetStepContext` | src/contextmanager/contextmanager.py:259-275 | Appends to a list, replaces otherwise, raises when there is no list |
| `StepRunner.ContextManager.SetStepVars` | src/contextmanager/contextmanager.py:277-290 | Sets variables and aliases and keeps the rest; an unknown step starts with an empty record |
| `StepRunner.ContextManager.SetStepProviderParameters` | src/contextmanager/contextmanager.py:250-257 | Sets parameters and keeps the rest; an unknown step starts with an empty record |
| `StepRunner.ContextManager.ResetForeachContext` | src/contextmanager/contextmanager.py:196-200 | Forgets items and value |
| `Sse.KeyIffLiveQueue` | src/common/core/sse.py:43-85 | In every interleaving a tenant has a key if and only if it has a live queue |
| `Sse.DeliversInOrder` | src/common/core/sse.py:55-123 | What a subscriber has received and what is queued for it is the greeting and then exactly the messages notified to its tenant while it was registered, in order |
| `Sse.LiveIsRegistered` | src/common/core/sse.py:43-85 | A queue is live exactly while the run has it registered, under its own tenant |
| `Sse.PutIsOwed` | src/common/core/sse.py:96-109 | A message is put into a queue if and only if the queue is registered for the tenant |
| `Sse.SSEBroadcaster.Subscribe` | src/common/core/sse.py:41-46 | Registers a new queue last |
| `Sse.SSEBroadcaster.Advance` | src/common/core/sse.py:57-66 | One turn of the generator: greeting, message or keep-alive |
| `Sse.SSEBroadcaster.Close` | src/common/core/sse.py:70-85 | Unregisters the queue, and the tenant with its last queue |
| `Sse.SSEBroadcaster.Notify` | src/common/core/sse.py:96-109 | Puts the message into every queue of the tenant, once each |
| `SseText.ClientSeesWhatWasSent` | src/common/core/sse.py:125-137 | By the standard's parsing rules a client dispatches exactly the messages sent, in order, and nothing for keep-alives |
| `SseText.OneMessage` | src/common/core/sse.py:136-137 | One formatted message is one event |
| `SseText.OneKeepAlive` | src/common/core/sse.py:66 | A keep-alive is no event |
| `SseDelivery.ClientHearsWhatIsOwed` | src/common/core/sse.py:55-137 | In every interleaving, what a client dispatches from the text its subscription has yielded, and then what is queued for it, is "connected" and then the events notified to its tenant while it was registered |
| `SseDelivery.OneEventEach` | src/common/core/sse.py:136-137 | Each notified message is exactly one of these events |
| `TriggerFilters.TranslationMeans` | src/workflowmanager/workflowmanager.py:179-279 | For every accepted list of filters whose .* are on keys with a dot, the text parses as CEL and evaluates on every event to the conjunction of the well-formed filters' meanings |
| `TriggerFilters.TranslationMeansIff` | src/workflowmanager/workflowmanager.py:225-226 | The text parses, and means that on every event, if and only if every .* is on a key with a dot |
| `FilterForms.PlainMeans` | src/workflowmanager/workflowmanager.py:262-272 | A plain filter asks whether the sources contain the value for the key source, and whether the field equals it for any other key; negated under exclude |
| `FilterForms.EitherMeans` | src/workflowmanager/workflowmanager.py:211-224 | Two alternatives in parentheses ask that of one or the other word, negated under exclude |
| `FilterForms.AlternativesMean` | src/workflowmanager/workflowmanager.py:211-224 | Any number of alternatives, each without the parentheses and the space around it, ask that of one of the words |
| `FilterForms.ContainedMeans` | src/workflowmanager/workflowmanager.py:233-238 | ".*word.*" asks whether the field contains the word |
| `FilterForms.PrefixMeans` | src/workflowmanager/workflowmanager.py:239-244 | So does "word.*" |
| `FilterForms.AnythingMeans` | src/workflowmanager/workflowmanager.py:225-226 | ".*" asks whether there is such a field, whatever exclude says |
| `FilterForms.BlankMeans` | src/workflowmanager/workflowmanager.py:227-232 | "^$" compares with the empty text |
| `FilterForms.RefusedIff` | src/workflowmanager/workflowmanager.py:207-248 | A regular expression is refused if and only if it has a negated or repeated class, or has no alternatives and neither is "^$" nor ends in ".*" |
| `FilterForms.EachHolds` | src/workflowmanager/workflowmanager.py:186-279 | The translation of several filters is true where each well-formed one's own translation is, and false if and only if one of these is false |
| `FilterForms.MalformedIsSkipped` | src/workflowmanager/workflowmanager.py:193-198 | A filter without key or value changes nothing |
| `TriggerFilters.FlippingNegatesIff` | src/workflowmanager/workflowmanager.py:225-272 | Flipping exclude negates the translation on every event if and only if the form is not .*, or is .* on a key without a dot, where neither text is CEL |
| `TriggerFilters.OnlySupported` | src/workflowmanager/workflowmanager.py:207-248 | Translation is refused if and only if some well-formed filter has an unsupported expression |
| `TriggerFilters.NothingToTranslate` | src/workflowmanager/workflowmanager.py:193-198 | Filters without key or value give the empty text |
| `TriggerFilters.EvalGroup` | src/workflowmanager/workflowmanager.py:249-260 | De Morgan over the alternatives, with unknown values |
| `TriggerFilters.GroupReads` | src/workflowmanager/workflowmanager.py:257-260 | A printed group parses to the group |
| `TriggerFilters.WrittenReads` | src/workflowmanager/workflowmanager.py:215-243 | A printed comparison parses to itself |
| `TriggerFilters.ReadConjunction` | src/workflowmanager/workflowmanager.py:279 | Texts joined by && parse to their conjunction |
| `TriggerFilters.ReadDisjunction` | src/workflowmanager/workflowmanager.py:260 | Texts joined by the or sign parse to their disjunction |
| `TriggerFilters.ClauseMeans` | src/workflowmanager/workflowmanager.py:200-272 | A filter's clause means what the filter means |
| `TriggerFilters.ConvertFilters` | src/workflowmanager/workflowmanager.py:186-279 | The loop over the filters |
| `TriggerFilters.ConvertFilter` | src/workflowmanager/workflowmanager.py:200-272 | One filter |
| `TriggerFilters.ConvertRegex` | src/workflowmanager/workflowmanager.py:202-248 | One regular expression |
| `TriggerFilters.ConvertAlternatives` | src/workflowmanager/workflowmanager.py:211-224 | The loop over the alternatives |
| `CallScanner.Scanner.ClosesAtFirstReturn` | src/iohandler/iohandler.py:86-118 | A call ends at a place if and only if that is the first where the depth of parentheses outside literals is back to zero |
| `CallScanner.Scanner.CallsAreCalls` | src/iohandler/iohandler.py:72-128 | Tokens start with keep., are balanced, disjoint and in order, and their escapes are quotes inside them |
| `CallScanner.Scanner.CallsFindAll` | src/iohandler/iohandler.py:72-128 | No call is missed but those without a parenthesis and those at or after one that the scan comes to and that never closes |
| `CallScanner.Scanner.ErrorIffFinalQuote` | src/iohandler/iohandler.py:86-111 | The scan reads past the end if and only if the text ends in an unescaped quote that would close a literal inside a call |
| `CallScanner.Scanner.CallEscapes` | src/iohandler/iohandler.py:108-111 | Noted positions are quotes inside the call, in order |
| `CallScanner.Scanner.LiteralEscapes` | src/iohandler/iohandler.py:108-111 | and of the literal's own kind |
| `CallScanner.Scanner.LiteralEndsIff` | src/iohandler/iohandler.py:92-111 | A literal ends exactly after its first unescaped quote that neither a letter nor a digit nor a space follows, and the unescaped quotes before that are exactly those noted |
| `CallScanner.Scanner.LexemeIs` | src/iohandler/iohandler.py:86-111 | A quote of either kind opens a literal; anything else stands for itself |
| `CallScanner.Scanner.ExtractKeepFunctions` | src/iohandler/iohandler.py:72-128 | The index-driven loop finds what the recursive lexer finds, on every text |
| `CallScanner.Scanner.ScanCall` | src/iohandler/iohandler.py:80-118 | The inner loop with its flags is the lexer of one call |
| `Escaping.InsertEscapes` | src/iohandler/iohandler.py:187-195 | The loop with the running offset |
| `Escaping.SequentialIsSimultaneous` | src/iohandler/iohandler.py:187-195 | Inserting one by one with the offset is inserting at all positions at once |
| `Escaping.RightQuotesIff` | src/iohandler/iohandler.py:184-195 | The noted quotes are the ones escaped if and only if there are none or the token starts the text |
| `Escaping.WrongQuoteShows` | src/iohandler/iohandler.py:108-111 | A template whose token the scanner returns with an escape and a start after 0, and in which the wrong character is escaped |
| `Escaping.UnescapedEscaped` | src/iohandler/iohandler.py:187-195 | Taking the inserted backslashes out gives the token back |
| `Escaping.EncodeSingleQuotesInDoubleQuotes` | src/iohandler/iohandler.py:465-482 | The loop of the quote encoder |
| `Escaping.EncodingIdempotent` | src/iohandler/iohandler.py:465-482 | Encoding twice is encoding once |
| `Escaping.EncodedParts` | src/iohandler/iohandler.py:465-482 | Of a text whose first two double quotes enclose m, what comes before them stays, m gets a backslash before each single quote that has none, and the rest is encoded on its own |
| `Escaping.InsideIsProtected` | src/iohandler/iohandler.py:465-482 | After an only double quote, likewise |
| `Escaping.OutsideStays` | src/iohandler/iohandler.py:465-482 | A text without double quotes stays as it is |
| `Escaping.EncodedShape` | src/iohandler/iohandler.py:465-482 | Double quotes and the last character stay |
| `Escaping.EncodedPrefix` | src/iohandler/iohandler.py:465-482 | A prefix is encoded on its own, with its own double quotes |
| `Escaping.AllQuotesEncoded` | src/iohandler/iohandler.py:472-477 | No single quote inside double quotes is left without a backslash |
| `Escaping.DecodedIsOriginal` | src/iohandler/iohandler.py:477 | Deleting the inserted backslashes gives the text back |
| `SqlTemplate.CreateRawSql` | src/searchengine/searchengine.py:275-288 | The loop over the reversed parameters |
| `SqlTemplate.SequentialIsSimultaneous` | src/searchengine/searchengine.py:279-287 | One key at a time from the last is the simultaneous substitution, for ordered keys |
| `SqlTemplate.AgreementIffOrdered` | src/searchengine/searchengine.py:280-281 | That holds for all templates and values if and only if no later key is a proper prefix of an earlier one |
| `SqlTemplate.WrongOrderShows` | src/searchengine/searchengine.py:280-281 | The template that shows a wrong order |
| `SqlTemplate.NumberedKeysOrdered` | src/searchengine/searchengine.py:280-281 | param_1, param_2 and so on are ordered, past param_10 too |
| `SqlTemplate.ReplaceFills` | src/searchengine/searchengine.py:287 | Replacing a key fills exactly that key's holes |
| `SqlTemplate.OneValue` | src/searchengine/searchengine.py:284-287 | A lone placeholder becomes the string in quotes, or any other value as it is printed |
| `SqlTemplate.RenderParse` | src/searchengine/searchengine.py:284 | A template is the text of its plain parts and holes |

## Left out

- Interval workflows, the timeout sweep, shutdown, and a database that fails inside a finish call (workflowscheduler.py:115-182, 374-406, 660-708). The sweep can finish a row that a worker finishes later, so the exactly-once lemmas are about runs without it.
- The queue-size metric, log messages, labels of metrics, and the `triggered_by` text of a requeued item.
- The random identifiers of executions are handed out in increasing order, so that they never repeat; a random execution number is any number.
- Which workflows an alert or incident triggers (workflowmanager.py:286-520) and the severity bookkeeping there: the model starts where an item is appended.
- `Scheduler.WorkflowScheduler.RunWorkflow`: does not model the workflow itself; its outcome is a parameter.
- `StormGuard.ErrorStormGuard.ShouldRecord`: does not model the lock. The clock is read before the lock is taken (error_storm_guard.py:101-102), so a non-decreasing clock in lock order is a hypothesis of the rate lemmas.
- A negative cap on the number of entries, for which popping from the empty map raises; the hashing of keys.
- The database behind the rules engine: lookup, creation, assignment of alerts and `resolve_incident_if_require` answer as parameters, and every commit succeeds. Incident names and fingerprints' texts, the list of returned incidents, and the sanitising of payloads are not modelled.
- CEL's compiler and evaluator, asteval, chevron and `ast.parse`: outcomes are parameters, but for the fragment of CEL that the filter translator prints.
- `TriggerFilters.TranslationMeans`: does not model values with quotes, backslashes or line breaks, nor keys that are no dotted paths of CEL identifiers, because the translator prints them unescaped and the text is then another one.
- What `insert_events` does to the translated CEL afterwards.
- `DeepMerge.DeepMerge`: does not model what merging writes to a dict it has taken over from the source, only that it comes to one (`AtSource`); the source is a value, and by `MergeIsOver` this needs a dict that is found twice. A destination that contains itself is not modelled; keys are texts.
- `IncidentReports.RecurringIncidents`: does not model cyclic links, because on them the source's loop does not end (`AllWalksEndIffAcyclic`). Names of incidents and the other report sections are not modelled.
- `StepRunner.Step.RunForeach`: does not model how the items of the foreach are found, the waiting between retries, aliases, the size of the context, or the alias `this` as a second reference to the same record.
- `StepRunner.Step.RunSingle`: does not model the conditions' own evaluation, whose verdict comes with the item.
- `Sse.SSEBroadcaster.Advance`: does not model a message lost when a wait is cancelled at the moment the message arrives; queues are unbounded as in the source.
- `SseText.ClientSeesWhatWasSent`: does not model event names or data with line breaks or carriage returns (nor does `SseDelivery.ClientHearsWhatIsOwed`); JSON text has none, and the source's event names have none.
- `CallScanner.Scanner.ExtractKeepFunctions`: does not model Unicode's notion of an alphanumeric character, which is a parameter.
- The branch of `parse` for several tokens (iohandler.py:221-245), `raw_render_without_execution`, and the evaluation of tokens.
- `SqlTemplate.SequentialIsSimultaneous`: requires values without colons and placeholders that are known and end at a character no name continues with, because replacement otherwise reaches into what it put in.
- RBAC, tenant configuration, caches, pagination and interval parsing, which would add only easy members; Redis, Elasticsearch, providers and HTTP routes.
