# Starwatch: a model of the daemon's stateful cores

Starwatch is a Go daemon that watches a satellite dish, its router and the WAN link. This project models the
parts of it that keep state or do arithmetic worth a proof, and proves what each of them promises over all inputs
and whole runs. `dafny verify dfyconfig.toml` checks everything.

| modules | part of the daemon |
|---|---|
| Basics, Sorting | optional values, sequences, clock constants and a stable sort, shared by the others |
| GoStrings, Uci, UciLines, UciReading, UciRewriting, UciStability, UciMeaning, UciTheorems | the UCI parser and the in-place UCI rewriter |
| ConfigText, Config, ConfigNames, ConfigManager, ConfigChanges, ConfigAgreement, ConfigRuns, ConfigFile, ConfigWrites | the settings loader and the settings manager, as runs of requests, token changes and failing writes, and the file by its own option names |
| AlertEngine, AlertTheorems, AlertSaid | the alert state machines with clearing delay, saved state and restarts, and what they send |
| OutageTimeline, OutageTheorems, OutageTold | the three outage sources, their events, the 30 s path hold, and what is published and saved |
| HistoryRing, HistoryStore | the RAM tier: ring buffers, queries, downsampling |
| HistoryAggregates, HistoryTiers, HistoryTierTheorems, HistoryLedger, HistoryDatabase | the persistent tier: minute and quarter rows, bounded lists, the transactional flush |
| OutageSummary, WeightedStats | the diagnostics arithmetic |
| RouterControl | the whole-collection network write and its readback |
| Routes | the two longest-prefix route lookups |
| DishPoller | decoding the dish's history ring, and high-water marks |
| WanMonitor | probe windows over a pruned list |
| EventBus | bounded fanout |

Code that mutates objects, slices or maps is a class or a method with loops, tied by its contract to a function or a
predicate on values; the theorems are about those. Times are integers (nanoseconds, or Unix seconds where the code
truncates), floats are reals, and "year 2025 or later" is a lower bound on the clock. Map keys that the code joins with
NUL bytes are tuples or datatypes.

What a method computes is also said without the function that specifies it: by the text of a line or the name of an
option (UciReading, ConfigFile, ConfigWrites), by the inputs of a tick (AlertSaid), by the observations and reports of a
run (OutageTold), by the index of a stored row (`HistoryDatabase.Database.Flush`), or by the samples an answer holds
(`HistoryStore.QueryMeans`).

Some results are exact conditions because the plain promise fails:

- Rewriting sets exactly the requested options, and is stable when repeated, if and only if the updates of each absent
  section are contiguous (`UciTheorems.RewriteCorrect`, `UciTheorems.RewriteStableIffGrouped`).
- Settings file and memory agree after an accepted request if and only if the configuration reached is one the loader
  accepts, which the request alone tells; a hold time of 0 s is accepted by the manager and refused by the loader
  (`ConfigRuns.StepAgrees`, `ConfigRuns.RequestAgrees`, `ConfigRuns.ZeroHoldDisagrees`).
- The minute row a flush writes is exact over what the RAM tier holds if and only if the window cuts nothing off that
  minute. The window starts one minute before the last flush, so unless that is a whole minute, the minute it falls into
  is overwritten by a partial row (`HistoryTierTheorems.MinuteExactIff`, `HistoryTierTheorems.CutMinute`).
- The stored duration of an outage is the longest flushed since its row was inserted. It is the longest ever flushed if
  and only if nothing longer was flushed before that. A flush keeps it so if and only if the update finds the row, or the
  outage is not flushed, or it was never flushed for longer than now (`HistoryLedger.RowExact`,
  `HistoryLedger.FlushExact`, `HistoryLedger.FlushesExact`, with the failing run `HistoryLedger.TrimForgets`).
- Pruning probes is invisible if and only if everything pruned lies before the window, which a clock that never goes back
  guarantees (`WanMonitor.PruningInvisibleIff`, `WanMonitor.Monitor.Keep`, with three rounds that publish a wrong loss,
  `WanMonitor.ClockBackLosesSamples`).
- What is told about an alert alternates and matches its state after every event if and only if no tick drops the
  alert's rule while it is active. After such a tick alternation survives if and only if nothing is ever sent about the
  alert again (`AlertTheorems.RunToldExact`, `AlertTheorems.DroppedRuleRepeats`).
- When writes of a tick fail, each on its own, a store that was right is right afterwards if and only if every change
  the tick is due to make, read off the branch guards before the tick, has a write that is due and will succeed at it or
  behind it. Over whole runs, it is right after every event if and only if that holds at every tick
  (`AlertTheorems.FailedSaveExact`, `AlertTheorems.RunInStepExact`, with the failing tick
  `AlertTheorems.FailedSaveExample`).

## Model

| member | source | states |
|---|---|---|
| GoStrings.SplitJoin | router/internal/config/uci.go:36-101 | splitting joined lines gives the lines back, for lines without a newline |
| GoStrings.JoinSplit | router/internal/config/uci.go:36-101 | joining the lines of a text gives the text back, for every text, so lines the rewriter copies stay byte for byte |
| UciLines.UnquoteQuote | router/internal/config/uci.go:108-119 | unquoting a quoted value gives the value, for every string |
| UciLines.RenderedOption | router/internal/config/uci.go:59-82 | an option line the rewriter writes is read by the parser as that option with that value, whatever quotes the value holds |
| UciLines.RenderedHeader | router/internal/config/uci.go:84-100 | a section header the rewriter writes is read by the parser as a section of that type and name |
| Uci.ParseUCI | router/internal/config/uci.go:121-161 | the parsing loop accepts exactly the texts the line-by-line reference parser accepts and returns its document |
| UciReading.CommentsSkipped | router/internal/config/uci.go:124-128 | a line of white space, or whose first other character is '#', changes nothing wherever it stands but the numbers of the lines behind it |
| UciReading.CommentedText | router/internal/config/uci.go:121-161 | the same of a whole text: with the comment line or without it, the document or the refusal is the same |
| UciReading.SpaceChars | router/internal/config/uci.go:125-127 | blank, tab and line ends are white space; letters, digits, quotes and '#' are not |
| UciReading.HeaderRead | router/internal/config/uci.go:134-141 | `config` and a type, with any white space around, open a section of that type without a name |
| UciReading.NamedHeaderRead | router/internal/config/uci.go:134-141 | `config`, a type and a name open a section of that type and name |
| UciReading.OptionRead | router/internal/config/uci.go:142-154 | `option`, a name and a value set that option of the last section, over what it was, and are refused outside a section |
| UciReading.ListRead | router/internal/config/uci.go:142-156 | `list`, a name and a value add the value at the end of that list of the last section |
| UciReading.LoneWordRefused | router/internal/config/uci.go:129-132 | a line of one word is refused as malformed, with its number |
| UciReading.BareRefused | router/internal/config/uci.go:142-149 | an option or list with a name only is refused, for the section it lacks first |
| UciReading.UnknownRefused | router/internal/config/uci.go:157-158 | any other keyword is refused |
| UciReading.EveryLine | router/internal/config/uci.go:124-133 | every line is white space, or text without white space at its ends between two runs of it |
| UciReading.WordOrMore | router/internal/config/uci.go:163-171 | such text is one word, or a word, a gap and more such text, so the lines above are all there are |
| UciReading.QuoteEach | router/internal/config/uci.go:108-108 | quoting replaces each quote by its escape and leaves every other character |
| UciReading.PlainRead | router/internal/config/uci.go:114-119 | a value without quotes is read alike between single quotes, between double quotes, and bare |
| Uci.ParseLinesRejectedPrefix | router/internal/config/uci.go:126-157 | a rejected line rejects every text that continues it |
| Uci.RecogniseAgrees | router/internal/config/uci.go:53-82 | rewriter and parser classify every line alike, so an option the rewriter replaces is one the parser reads |
| Uci.Group | router/internal/config/uci.go:29-34 | every section's pending updates are exactly the updates with its key, in their order |
| Uci.FindPending | router/internal/config/uci.go:66-78 | finds the first update that names the option of the current section, and none exactly when there is none |
| Uci.FlushPending | router/internal/config/uci.go:40-51 | at the end of a section its missing options are inserted, those already applied are not |
| Uci.AppendSections | router/internal/config/uci.go:84-100 | what is left over becomes new sections at the end, in the order of the updates |
| Uci.RewriteUCI | router/internal/config/uci.go:28-102 | the in-place rewriting loop computes the rewriting function that the theorems below are about |
| UciMeaning.RewrittenParse | router/internal/config/uci.go:28-161 | the document of the rewritten text, for any proper updates: every old section with its options overwritten and, in the first of its key, completed, then the placed new sections |
| UciMeaning.PlacedExact | router/internal/config/uci.go:84-100 | the sections appended are one for each absent key, with all its options, if and only if each absent section's updates are contiguous |
| UciStability.AllStable | router/internal/config/uci.go:28-102 | rewriting with contiguous updates a second time leaves every line as it is |
| UciTheorems.RewriteCorrect | router/internal/config/uci.go:28-161 | the rewritten text parses, and its document is the old one with exactly those options set if and only if each absent section's updates are contiguous |
| UciTheorems.RewriteIdempotent | router/internal/config/uci.go:28-102 | rewriting again with the same contiguous updates changes no byte, for any text, even one the parser rejects |
| UciTheorems.RewriteUngrouped | router/internal/config/uci.go:84-100 | with updates that are not contiguous, rewriting again always changes the text |
| UciTheorems.StrayExample | router/internal/config/uci.go:84-100 | a concrete proper list of updates that is not contiguous: in an empty file its result is not the intended document and changes again when rewritten |
| UciTheorems.RewriteStableIffGrouped | router/internal/config/uci.go:28-102 | on text that parses, a second rewrite changes nothing if and only if the updates are contiguous |
| UciTheorems.ExpectedRead | router/internal/config/uci.go:173-180 | looking a section up after the update finds its old options overridden by the new ones, and other sections as before |
| UciTheorems.FindAt | router/internal/config/uci.go:173-180 | looking a section up finds the first one of its type and name |
| UciTheorems.ExpectedKeeps | router/internal/config/uci.go:36-82 | lists and options that no update names are untouched in every section, and a named option has the new value wherever it was |
| UciTheorems.RewriteKeepsLines | router/internal/config/uci.go:36-83 | every line that is not a replaced option is still there, in order: comments, blanks and unknown content survive |
| UciReading.OutputLines | router/internal/config/uci.go:36-101 | every line of the result is one of the text's own, an option's own line with its indent and a new value, a new option behind one tab, or the header of a new section |
| UciTheorems.RewriteNothing | router/internal/config/uci.go:28-102 | without updates any text, even one the parser rejects, comes back byte for byte |
| ConfigText.ItoaRead | router/internal/config/manager.go:256-298 | a number the manager prints is read back as that number and has no line break |
| ConfigText.ItoaPlain | router/internal/config/manager.go:256-298 | it has digits only, and no zero in front |
| ConfigText.AtoiReads | router/internal/config/config.go:271-282 | decimal text is read digit by digit |
| ConfigText.AtoiSigned | router/internal/config/config.go:271-282 | one sign may stand in front |
| ConfigText.AtoiRefuses | router/internal/config/config.go:271-282 | anything else is refused |
| ConfigText.FieldsOfJoin | router/internal/config/config.go:108-110 | nonempty host names without white space, joined by spaces, split back into the same list |
| ConfigText.FieldsAreHosts | router/internal/config/config.go:108-110 | whatever the loader splits apart are nonempty names without white space |
| ConfigText.FieldsRead | router/internal/config/config.go:108-110 | splitting takes the first run of other characters behind any white space, and then the rest; white space alone gives nothing |
| ConfigText.BoolRead | router/internal/config/config.go:232-243 | the flags the manager writes are read back as they were |
| ConfigText.HexText | router/internal/config/manager.go:191-209 | the text of random bytes has two characters for each, its higher half first, on one line |
| ConfigText.ThousandthsPrint | router/internal/config/manager.go:411-413 | there is a formatting for which every nonnegative number with three decimals, and every time, prints on one line and reads back |
| Config.LoadConfig | router/internal/config/config.go:87-213 | the loader's chain of overwrites and early returns accepts exactly what the declarative loader accepts and gives its configuration; what that is, by option names, says the next row |
| ConfigFile.LoadedMeans | router/internal/config/config.go:62-213 | a parsed file loads as a configuration if and only if each field is the text of its own option in its own section, all spelled out, or its default when that is missing or empty, and every value is in its range |
| ConfigFile.SectionOptions | router/internal/config/uci.go:173-180 | the section looked up is the first of its type and name |
| Config.LoadFlags | router/internal/config/config.go:150-164 | every catalog rule gets its own flag, or the load fails exactly when one of the flags is unreadable |
| Config.LoadNumeric | router/internal/config/config.go:165-186 | the six numeric alert settings end up in their rules, or the load fails exactly when one is unreadable or out of range |
| Config.LoadAlertRules | router/internal/config/config.go:150-186 | flags and numbers together give the declarative rule set |
| ConfigNames.OptionsDiffer | router/internal/config/manager.go:247-442 | different settings of one section have different option names, so no update overwrites another |
| ConfigManager.ApplyMain | router/internal/config/manager.go:252-281 | the main part of a request is refused exactly when a value is invalid, and otherwise sets exactly the fields it names |
| ConfigManager.ApplyHistory | router/internal/config/manager.go:282-300 | the same for the retention times |
| ConfigManager.ApplyRule | router/internal/config/manager.go:317-369 | the same for one alert rule, with its thresholds and hold times |
| ConfigManager.ApplyRules | router/internal/config/manager.go:316-370 | the rules are refused exactly when one is, whatever the order of the map iteration |
| ConfigManager.ApplyAlerts | router/internal/config/manager.go:301-371 | the same for the alert part with its delivery addresses |
| ConfigManager.ApplyBattery | router/internal/config/manager.go:372-407 | the same for the battery |
| ConfigManager.ApplyUpdate | router/internal/config/manager.go:247-409 | a request is refused exactly when a part is; otherwise the candidate has the requested values and everything else unchanged, and the change list is the one described below |
| ConfigChanges.ChangesMeaning | router/internal/config/manager.go:247-409 | looking a setting up in the change list gives exactly the text of the requested value, and nothing for a setting the request does not name |
| ConfigChanges.ChangesOrdered | router/internal/config/manager.go:247-409 | the change list names each setting at most once, part by part |
| ConfigChanges.UpdatesProper | router/internal/config/manager.go:247-409 | so the rewriter's updates have distinct identities, plain names and one-line values |
| ConfigChanges.UpdatesGrouped | router/internal/config/manager.go:247-409 | and each section's updates are contiguous, whatever sections the file has |
| ConfigChanges.UpdatesRead | router/internal/config/uci.go:173-180 | after the rewrite, the loader sees the new text of each changed setting and the old text of every other |
| ConfigWrites.UpdateWrites | router/internal/config/manager.go:163-189 | after an accepted request that is written the file parses, each option the request names, spelled out, holds the text asked for in its section, and every other option of the four sections is as it was; the numbers must print and the hosts be hosts |
| ConfigAgreement.LoadedIsLoadable | router/internal/config/config.go:87-213 | everything the loader returns lies in the loader's own ranges |
| ConfigAgreement.ReaderAgrees | router/internal/config/manager.go:247-409 | loading the changed settings gives exactly the manager's candidate configuration, if that lies in the loader's ranges and the numbers the request writes print |
| ConfigRuns.Manager.Update | router/internal/config/manager.go:163-189 | a refused request or a failed write changes nothing; otherwise text and configuration change together |
| ConfigRuns.Manager.RegenerateToken | router/internal/config/manager.go:191-209 | the same for a new token, which is returned only when it was written |
| ConfigRuns.ChangeAgrees | router/internal/config/manager.go:163-189 | the text after an accepted request whose numbers print loads to the new configuration when that is loadable |
| ConfigRuns.ChargeAgrees | router/internal/config/manager.go:384-392 | a concrete family: with a formatting for which numbers print, setting the battery's charge in an empty file to any percentage with three decimals loads back to the new configuration |
| ConfigRuns.TokenAgrees | router/internal/config/manager.go:191-209 | the text after a new token loads to the configuration with that token, whatever the formatting of numbers |
| ConfigRuns.StepAgrees | router/internal/config/manager.go:163-209 | from agreement, one event leads to agreement if and only if the configuration reached is loadable; a request that takes effect must write numbers that print |
| ConfigRuns.FitsExact | router/internal/config/manager.go:247-409 | an accepted request leads to a configuration the loader accepts exactly when it stays in the loader's narrower ranges, each spelled out |
| ConfigRuns.RequestAgrees | router/internal/config/manager.go:163-189 | so text and memory agree after it if and only if it does, told before it is made |
| ConfigRuns.LoadableAccepted | router/internal/config/manager.go:247-409 | a request for changeable settings of known rules is accepted whenever the loader would accept the result |
| ConfigRuns.AcceptedChangeable | router/internal/config/manager.go:247-409 | nothing else is accepted: no restart-managed setting, unknown rule, level a rule does not have, or line break in an address |
| ConfigRuns.RunAgrees | router/internal/config/manager.go:163-209 | over any run, some writes failing, text and memory agree after every event if and only if every configuration reached is loadable |
| ConfigRuns.ZeroHoldDisagrees | router/internal/config/manager.go:347-357 | the concrete failing request, whatever the formatting of numbers: a hold time of 0 s is accepted and leaves a text that does not load |
| AlertEngine.Engine.constructor | router/internal/alert/engine.go:160-202 | a new engine is what the store says, or empty |
| AlertEngine.Engine.PersistState | router/internal/alert/engine.go:204-227 | saves exactly the active states and the failover baseline, or nothing when the write fails |
| AlertEngine.Engine.EmitMessage | router/internal/alert/engine.go:458-489 | a notification with the clock of the tick and, when resolved, the nonnegative time since the subject began |
| AlertEngine.Engine.EvaluateFailover | router/internal/alert/engine.go:323-349 | the first observation only sets the baseline, a change is announced once; the notification is spelled out by AlertSaid.FailoverTick |
| AlertEngine.Engine.EvaluateAlert | router/internal/alert/engine.go:263-320 | one alert's branch of a tick: dropped, switched off, unknown, raised or cleared |
| AlertEngine.Engine.Raise | router/internal/alert/engine.go:283-303 | the raising branch: fires once, and forgets a clearing in progress |
| AlertEngine.Engine.Clear | router/internal/alert/engine.go:304-319 | the clearing branch with its hold time |
| AlertEngine.Engine.Tick | router/internal/alert/engine.go:255-321 | a tick is the failover step followed by the steps of the catalog, the imperative loop with its in-place state computing the step function the theorems are about |
| AlertSaid.TickSays | router/internal/alert/engine.go:255-321 | everything a tick does about a listed alert, from its state and the inputs: the notification sent, field by field, or none, and its next state |
| AlertSaid.TickSends | router/internal/alert/engine.go:255-349 | everything a tick sends, in order: a failover first, then each alert of the catalog in turn |
| AlertSaid.FailoverTick | router/internal/alert/engine.go:323-349 | a tick announces a failover exactly when the rule is in force, the interfaces are known, a baseline is set and they differ from it: once, firing, with the old and the new set; and it then compares with what it observed |
| AlertSaid.FailoversAnnounced | router/internal/alert/engine.go:323-349 | over every run in which restarts find the store in step, the failovers announced are exactly the changes from one observation to the next, in order |
| AlertSaid.FiredOnce | router/internal/alert/engine.go:283-303 | an active alert was fired by one tick, has been active ever since, and holds that tick's clock, start and detail, across such restarts |
| AlertSaid.ResolvedSays | router/internal/alert/engine.go:458-489 | over such runs a resolution carries the detail of the tick that fired the alert, and as duration the time since its subject began as that tick had it, or since that tick; never negative |
| AlertSaid.CatalogComplete | router/internal/alert/engine.go:255-261 | every listed alert is handled at every tick |
| AlertTheorems.TickSound | router/internal/alert/engine.go:204-321 | after every tick whose saves succeed the store holds exactly the active states and the failover baseline, and only active alerts are clearing |
| AlertTheorems.RunSound | router/internal/alert/engine.go:178-321 | the same over every run of ticks and restarts |
| AlertTheorems.FreshSound | router/internal/alert/engine.go:178-202 | an engine restored from a store of active states starts out so |
| AlertTheorems.RestartsInvisible | router/internal/alert/engine.go:178-349 | as long as each restart finds the store in step, restarting the engine between any ticks changes no notification, now or later, whichever other writes fail |
| AlertTheorems.SavedRunsRead | router/internal/alert/engine.go:204-227 | over runs whose writes succeed every restart does find it so |
| AlertTheorems.FailedSaveExact | router/internal/alert/engine.go:204-349 | each write of a tick may fail on its own: from a store that is right, it is right after the tick if and only if each change due, told by the branch guards on the state before the tick, is followed in catalog order, or accompanied, by a write due that succeeds |
| AlertTheorems.FailedSaveExample | router/internal/alert/engine.go:283-303 | the concrete failing tick: from any state in which outage_started is clear, a tick that fires it and cannot write leaves a store that is wrong |
| AlertTheorems.RunInStepExact | router/internal/alert/engine.go:178-349 | over every run, whichever writes fail and whenever it restarts, the store is right after every event if and only if every tick's changes are followed by its own successful writes |
| AlertTheorems.TickClearing | router/internal/alert/engine.go:283-319 | whether or not writes succeed, only active alerts are ever clearing |
| AlertTheorems.LateSaveRepairs | router/internal/alert/engine.go:204-321 | if a write due in the tick succeeds and no alert behind it in the catalog is due to change, the store is right, whatever failed before and whatever it held |
| AlertTheorems.NoSaveExact | router/internal/alert/engine.go:204-321 | when no write of a tick succeeds, a store that is right stays so exactly if the guards of all changing branches are false before the tick |
| AlertTheorems.TickToldExact | router/internal/alert/engine.go:255-321 | after a tick what was told about an alert matches its state if and only if the tick did not drop its rule while it was active |
| AlertTheorems.RunToldExact | router/internal/alert/engine.go:255-321 | for every catalog alert but the failover event, over every run in which a restart finds the store in step, whichever other writes fail: firing and resolved alternate starting with firing, and the alert is active exactly when last seen firing, after every event, if and only if no tick drops its rule while it is active |
| AlertTheorems.RunTold | router/internal/alert/engine.go:255-321 | in particular over every such run whose rules keep the alert's name |
| AlertTheorems.DroppedRuleRepeats | router/internal/alert/engine.go:263-320 | after a tick has dropped the rule of an active alert, over any run that follows, alternation survives if and only if nothing is ever sent about the alert again |
| AlertTheorems.ClearingHistory | router/internal/alert/engine.go:288-315 | a clearing time is the clock of a tick since which no tick has found the condition known and active, across restarts that find the store in step |
| AlertTheorems.ResolvedAfterHold | router/internal/alert/engine.go:307-319 | an enabled alert with a hold time resolves only if it has been quiet for at least that long, across such restarts, and at a tick that knows it to be clear |
| AlertTheorems.UnknownIsNeutral | router/internal/alert/engine.go:279-282 | a tick that does not know the condition of an enabled alert changes nothing about its state and sends nothing about it |
| OutageTimeline.Timeline.constructor | router/internal/outage/timeline.go:67-75 | an empty timeline, with or without a place to persist |
| OutageTimeline.Timeline.ExpectUnreachableUntil | router/internal/outage/timeline.go:54-60 | the deadline only moves forward |
| OutageTimeline.Timeline.IngestDish | router/internal/outage/timeline.go:77-111 | the reports of a poll, one after the other, after pruning: what opens, closes, is repeated or ignored |
| OutageTimeline.Timeline.PruneSeen | router/internal/outage/timeline.go:113-122 | forgets exactly the keys that ended over an hour ago |
| OutageTimeline.Timeline.ObserveDish | router/internal/outage/timeline.go:124-162 | opens and closes the unreachable outage; when, with which start and cause, says OutageTold.ReachExactly |
| OutageTimeline.Timeline.ObservePath | router/internal/outage/timeline.go:164-206 | opens and closes the path outage through the pending time |
| OutageTheorems.RunSound | router/internal/outage/timeline.go:77-206 | over every run, with pruning and in either persistence mode, started and ended alternate for every identity, an entry is ongoing exactly when its last event was a start, and only closed outages of nonnegative length are saved |
| OutageTheorems.OneOpenPerSource | router/internal/outage/timeline.go:124-206 | at most one unreachable and one path outage is open |
| OutageTheorems.RunStartIsFirst | router/internal/outage/timeline.go:164-206 | the start of the current unbroken run of losses, told from the observations alone, is its first observation |
| OutageTheorems.PathOpensExactly | router/internal/outage/timeline.go:164-206 | a path outage is open exactly when an observation of the current unbroken run of losses came at least 30 s after its first; it starts at that first one and stays open while the run lasts |
| OutageTheorems.PathClosesExactly | router/internal/outage/timeline.go:164-206 | the first observation that is not a loss closes it, with the time since its start as duration under a clock that does not go back |
| OutageTold.FailingSinceIsFirst | router/internal/outage/timeline.go:124-162 | the start of the current failing run is the first failing observation after the last one that succeeded |
| OutageTold.ReachExactly | router/internal/outage/timeline.go:124-162 | over every run an unreachable outage is open if and only if the last observation failed; it has the start of the first failure of that run, its cause is expected_reboot exactly when that came before the latest expected deadline, the first success ends it with the time since its start, and nothing else is published about it |
| OutageTold.PathExactly | router/internal/outage/timeline.go:164-206 | everything published about path outages, told from the path observations: one start when the losses have lasted 30 s, and one end at the first that is none |
| OutageTold.EndedAreSaved | router/internal/outage/timeline.go:124-206 | over every run the unreachable and path outages saved are exactly those whose end was published, in order and with the same length, and none without persistence |
| OutageTold.DishExactly | router/internal/outage/timeline.go:77-122 | over every run, whether a dish outage is open, what was published about it and what was saved of it follow from the reports of its own cause and start, and their times, alone |
| OutageTold.SavedGrowing | router/internal/outage/timeline.go:77-122 | in the hour after it began a dish outage is saved again only when it is reported longer |
| HistoryRing.Ring.constructor | router/internal/history/ring.go:13-18 | an empty ring with room for at least one point |
| HistoryRing.Ring.Append | router/internal/history/ring.go:20-33 | the arrays hold the last points appended, and the flag says whether all times ever appended were in order |
| HistoryRing.StoredMeans | router/internal/history/ring.go:20-33 | a point is kept with its value and its whole seconds, rounded down |
| HistoryRing.Ring.Snapshot | router/internal/history/ring.go:37-48 | the last capacity points ever appended, oldest first |
| HistoryStore.Store.Append | router/internal/history/store.go:59-68 | adds to one series and no other, or reports an unknown series |
| HistoryStore.Store.Query | router/internal/history/store.go:70-97 | the naive answer over everything ever appended: last capacity points, zero times dropped, stably sorted, not before `since`, downsampled |
| HistoryStore.QueryMeans | router/internal/history/store.go:70-97 | an unlimited answer is in time order, and of each time holds exactly those of the last capacity points with that time, in their order, none with the zero time and none before `since` |
| HistoryStore.LimitMeans | router/internal/history/store.go:104-117 | a limited answer is all of it when it fits, its last point for a limit of one, and otherwise its points at i(n-1)/(limit-1) |
| HistoryStore.NoLimit | router/internal/history/store.go:104-107 | a limit of zero or less is none |
| HistoryStore.FirstSince | router/internal/history/store.go:91-95 | the binary search finds where the points not before `since` begin |
| HistoryStore.DownsamplePoints | router/internal/history/store.go:104-117 | fills the result with the evenly spread points |
| HistoryStore.SortMeans | router/internal/history/store.go:86-88 | the sort is in time order, keeps points of equal time in their order, and has the same points as often |
| Sorting.SortSorts | router/internal/history/store.go:86-88 | insertion by key, which the three sorts share, gives an ordered list with the same elements as often |
| HistoryStore.SortUnique | router/internal/history/store.go:86-88 | those two properties determine the sorted list, so sorting an ordered ring would change nothing |
| HistoryStore.SinceIsSuffix | router/internal/history/store.go:91-95 | on ordered points, filtering by time is taking the suffix from where the search stops |
| HistoryStore.SpreadMeans | router/internal/history/store.go:111-116 | the downsampling positions strictly increase and keep both end points |
| HistoryAggregates.Aggregate.Add | router/internal/history/sqlite.go:235-244 | adds a value in place |
| HistoryAggregates.Aggregate.AddRange | router/internal/history/sqlite.go:246-255 | adds a row in place |
| HistoryAggregates.OfValuesExact | router/internal/history/sqlite.go:235-244 | adding values one by one gives their least, mean, greatest and number |
| HistoryAggregates.OfRowsMerges | router/internal/history/sqlite.go:246-255 | adding rows one by one gives the least minimum, the sample-weighted mean, the greatest maximum and the total number |
| HistoryAggregates.ExactUnique | router/internal/history/sqlite.go:235-244 | what a row of samples stands for determines the row |
| HistoryAggregates.MergingIsExact | router/internal/history/sqlite.go:235-255 | merging exact rows gives the exact row of all their values, the same as adding the values directly |
| HistoryAggregates.ExactSane | router/internal/history/sqlite.go:297-306 | the mean of a row of samples lies between its minimum and maximum |
| HistoryAggregates.MergedSane | router/internal/history/sqlite.go:476-483 | so does the mean of merged rows |
| HistoryTiers.Gather | router/internal/history/sqlite.go:263-283 | one aggregate for every minute with a point in the window, over exactly the points of that minute, never two sharing an object |
| HistoryTiers.QueryReads | router/internal/history/sqlite.go:268-272 | what the flush reads is what a RAM query without a limit answers |
| HistoryTiers.UpsertMinutes | router/internal/history/sqlite.go:290-307 | inserts or replaces whole rows, and finds the earliest minute touched |
| HistoryTiers.SelectSince | router/internal/history/sqlite.go:452-455 | all keys from a time on, each once, in time order |
| HistoryTiers.RebuildQuarters | router/internal/history/sqlite.go:451-485 | every quarter from the boundary on that has minute rows gets the row that merges all of them; others stay |
| HistoryTierTheorems.RebuildRight | router/internal/history/sqlite.go:309-313 | rebuilding from the quarter of the earliest new minute on keeps every quarter row equal to the merge of all its minute rows |
| HistoryTierTheorems.RetainRight | router/internal/history/sqlite.go:314-319 | deleting old rows leaves every later quarter right |
| HistoryTierTheorems.MinuteExactIff | router/internal/history/sqlite.go:263-302 | a minute row is exact over what the RAM tier holds of that minute if and only if the window misses none of it |
| HistoryTierTheorems.WholeMinuteExact | router/internal/history/sqlite.go:263-302 | a minute that lies wholly in the window is exact |
| HistoryDatabase.SampleWritten | router/internal/history/sqlite.go:262-300 | every believed sample of the RAM tier in the window, of any series, is within the bounds of the row a flush writes of its minute |
| HistoryTierTheorems.LastMinuteCovered | router/internal/history/sqlite.go:263-266 | the minute in which the last flush ran lies wholly in the next window, so its row is completed |
| HistoryTierTheorems.CutMinute | router/internal/history/sqlite.go:263-302 | the concrete failing case: the unaligned minute before it loses a sample that its row had |
| HistoryDatabase.FlushedMinuteExact | router/internal/history/sqlite.go:257-313 | after a flush a minute row it wrote is exact over all the RAM tier holds of that minute if and only if the window cuts nothing off it |
| HistoryTierTheorems.QuarterExact | router/internal/history/sqlite.go:451-485 | a quarter whose minute rows are exact equals aggregating all their samples directly |
| HistoryLedger.AppendBounded | router/internal/history/sqlite.go:216-222 | keeps the newest items up to the limit, in order |
| HistoryLedger.WriteOutages | router/internal/history/sqlite.go:329-345 | update with the longer duration, or insert when nothing matched, entry by entry |
| HistoryLedger.EntriesWritten | router/internal/history/sqlite.go:329-345 | every entry has a row of its source, cause and start that is at least as long |
| HistoryLedger.WriteAllRecorded | router/internal/history/sqlite.go:329-345 | each source, cause and start has at most one row, and its duration is the longest flushed since the row was inserted |
| HistoryLedger.TrimRecorded | router/internal/history/sqlite.go:356-363 | trimming to the newest rows keeps that |
| HistoryLedger.CompleteMeans | router/internal/history/sqlite.go:329-345 | while no row was trimmed, the table holds exactly the longest duration ever flushed of every outage |
| HistoryLedger.RowExact | router/internal/history/sqlite.go:329-345 | a row's duration is the longest ever flushed for its outage if and only if nothing flushed before the row was inserted was longer |
| HistoryLedger.WriteAllExact | router/internal/history/sqlite.go:329-345 | writing entries keeps an outage's duration the longest ever flushed if and only if the update finds a row, or the outage is not among them, or it was never flushed for longer than they say |
| HistoryLedger.FlushExact | router/internal/history/sqlite.go:329-363 | the same for a flush with its trimming, when no more outages are pending than rows are kept, as the pending list's own bound ensures |
| HistoryLedger.FlushesExact | router/internal/history/sqlite.go:329-363 | over any run of such flushes the stored durations of an outage are the longest ever flushed after each if and only if each flush meets that condition |
| HistoryLedger.TrimForgets | router/internal/history/sqlite.go:329-363 | the concrete failing run: after as many other outages as the table holds, a shorter duration replaces a longer one |
| HistoryDatabase.EventsConserved | router/internal/history/sqlite.go:172-176 | bounding pending and stored events by the same limit equals bounding the whole stream: within it nothing is lost, doubled or moved |
| HistoryDatabase.SpeedtestsConserved | router/internal/history/sqlite.go:200-204 | the same for speed tests |
| HistoryDatabase.OutagesStayRight | router/internal/history/sqlite.go:329-363 | a flush keeps the outage table right, and complete while no more than 10 000 different outages were flushed |
| HistoryDatabase.OutageFlushExact | router/internal/history/sqlite.go:329-363 | the same exact condition for the database's own table and limit, which also bounds what is pending, together with the invariant of its outage table |
| HistoryDatabase.Database.AddEvent | router/internal/history/sqlite.go:172-176 | the pending list is always the newest 10 000 of the events added since the last commit: the new one at the end, and the oldest dropped when full |
| HistoryDatabase.Database.AddSpeedtest | router/internal/history/sqlite.go:200-204 | the same with 500 speed tests |
| HistoryDatabase.Database.SaveOutage | router/internal/history/sqlite.go:206-214 | refuses an ongoing outage, and keeps the newest 10 000 others |
| HistoryDatabase.Database.SetRetention | router/internal/history/sqlite.go:155-164 | sets positive times and ignores others |
| HistoryDatabase.Database.Flush | router/internal/history/sqlite.go:257-372 | before 2025 or when anything fails nothing at all changes; otherwise the newest rows of events and speed tests are those pending, each in its place with its own fields and its own second, or the flush's when it lies before 2025, behind the newest older rows; minutes, quarters and outages are written as described above, the pending lists are emptied and old rows deleted, over any mix of adds, failed, skipped and committed flushes |
| HistoryDatabase.EventsAreStored | router/internal/history/sqlite.go:316-328 | inserting the pending events and keeping the newest 10 000 gives those rows, index by index |
| HistoryDatabase.SpeedtestsAreStored | router/internal/history/sqlite.go:346-363 | the same for speed tests and 500 |
| HistoryDatabase.Database.SinceMeans | router/internal/history/sqlite.go:262-270 | the next window begins a minute before the last flush and holds the whole of the minute it ran in |
| HistoryDatabase.Database.Reopen | router/internal/history/sqlite.go:119-151 | the tables survive a restart, and the next window starts from the newest minute row |
| OutageSummary.SortByStart | router/internal/diagnostics/diagnostics.go:345-345 | any sort by start: the same intervals as often, equal starts in any order |
| OutageSummary.MergeNext | router/internal/diagnostics/diagnostics.go:346-356 | extends the last merged interval or appends behind it, leaving every unread element of the array alone |
| OutageSummary.MergeInPlace | router/internal/diagnostics/diagnostics.go:346-356 | the compaction into the array being read computes the merged list of the original contents |
| OutageSummary.MergeJoins | router/internal/diagnostics/diagnostics.go:346-356 | the merged intervals are in order, nonempty and apart, and join exactly the overlapping ones |
| OutageSummary.JoinedBounds | router/internal/diagnostics/diagnostics.go:346-356 | a merged interval begins or ends at a point exactly if some interval does and none has it inside |
| OutageSummary.JoinsUnique | router/internal/diagnostics/diagnostics.go:345-356 | so the merged list is determined by the set of intervals, whatever order they were sorted into |
| OutageSummary.Summarize | router/internal/diagnostics/diagnostics.go:324-368 | number, total and longest of the merged outages inside the span, or nothing without a valid span |
| OutageSummary.AnswerPermuted | router/internal/diagnostics/diagnostics.go:324-368 | none of the three outputs depends on the order of the outages |
| OutageSummary.AnswerExists | router/internal/diagnostics/diagnostics.go:324-342 | there is an answer exactly when some outage is down at some time in the span |
| OutageSummary.LongestMeans | router/internal/diagnostics/diagnostics.go:357-366 | the longest is the length of one of the merged outages and at least that of each |
| OutageSummary.DowntimeIsMeasure | router/internal/diagnostics/diagnostics.go:324-368 | the downtime is the measure of the union of the outages clipped to the span |
| WeightedStats.Mean | router/internal/diagnostics/diagnostics.go:427-435 | the mean of the list in which each value is repeated by its weight |
| WeightedStats.Scan | router/internal/diagnostics/diagnostics.go:445-452 | stops at the first value whose running weight reaches the rank; the fallback return is never reached |
| WeightedStats.Percentile | router/internal/diagnostics/diagnostics.go:437-453 | the nearest-rank element of the sorted list of repeated values, whatever order equal values were sorted into |
| WeightedStats.RankLeast | router/internal/diagnostics/diagnostics.go:441-444 | the rank is the least that is at least the percentile's share of the total weight |
| WeightedStats.RankExists | router/internal/diagnostics/diagnostics.go:437-453 | there is such a list, so the percentile is determined |
| WeightedStats.FindBucket | router/internal/diagnostics/diagnostics.go:462-462 | the binary search finds the bucket whose edges contain the value |
| WeightedStats.BucketUnique | router/internal/diagnostics/diagnostics.go:455-466 | no value belongs to two buckets |
| WeightedStats.EdgeEnds | router/internal/diagnostics/diagnostics.go:455-466 | an edge belongs to the bucket it ends |
| WeightedStats.Distribution | router/internal/diagnostics/diagnostics.go:455-466 | each count is the weight of the values in that bucket, and the counts add up to the total weight |
| WeightedStats.WindowNonempty | router/internal/diagnostics/diagnostics.go:215-225 | some point is in the window exactly when one passes all the filters |
| WeightedStats.WindowOne | router/internal/diagnostics/diagnostics.go:193-225 | which points are in the window, and that each weighs as much as its samples, at least one |
| WeightedStats.BatteryLoad | router/internal/diagnostics/diagnostics.go:184-227 | each refusal exactly in its case, and otherwise a positive mean over the believed, positive points of the last 15 minutes weighted by sample count |
| RouterControl.Bss.Change | router/internal/dish/router_control.go:380-417 | succeeds exactly when the credentials fit; then each named field is as asked, the password is the new one or the one it had, and every other field is as before |
| RouterControl.ChangedAuth | router/internal/dish/router_control.go:380-417 | the authentication after a change, kind by kind and with its password |
| RouterControl.FitsMeans | router/internal/dish/router_control.go:380-417 | which credentials fit: a passphrase alone needs a PSK set, a PSK mode a password, and an unknown mode never does |
| RouterControl.Clone | router/internal/dish/router_control.go:351-351 | a deep copy: equal values, no object shared with the original or twice with itself |
| RouterControl.FindTarget | router/internal/dish/router_control.go:352-363 | finds the service set with that name and band exactly when there is one and no second |
| RouterControl.NameIsFree | router/internal/dish/router_control.go:364-372 | says whether no other service set on the band has the new name |
| RouterControl.SiblingsAreKnown | router/internal/dish/router_control.go:373-379 | says whether every other PSK service set came with its password |
| RouterControl.BuildNetworkSetConfig | router/internal/dish/router_control.go:350-419 | accepted exactly when there is one target, its name is free, no sibling's password is missing and its own fits, with the right error otherwise; the request changes only the target, only in the named fields, and not what was read |
| RouterControl.NetworkMatches | router/internal/dish/router_control.go:447-478 | accepts exactly when the first service set with the old or new name on the band confirms everything asked |
| RouterControl.WrittenIsConfirmed | router/internal/dish/router_control.go:350-478 | the networks an accepted mutation writes are accepted on readback, and the target is the only set looked at |
| RouterControl.RefusedExactly | router/internal/dish/router_control.go:350-379 | a fitting mutation of a clear target is refused exactly when writing it would leave a second set that a readback takes for the target, or write another set's missing password back as empty |
| RouterControl.ConfirmedHasFinal | router/internal/dish/router_control.go:447-493 | an accepted readback holds a service set on the band with the final name, flags and security |
| RouterControl.NoPasswordErased | router/internal/dish/router_control.go:373-417 | an empty password can only be written to the target, and only when no security is asked and the password it is to have is empty |
| Routes.ClearLowest | router/internal/wan/discovery.go:61-64 | clearing the lowest set bit of a word takes away exactly one of its ones |
| Routes.CountBits | router/internal/wan/discovery.go:61-64 | the loop counts the ones of any mask |
| Routes.MaskOnes | router/internal/wan/discovery.go:61-64 | for a contiguous mask that is the prefix length |
| Routes.MaskOrder | router/internal/dish/router.go:370-372 | in the table's byte order, contiguous masks compare as numbers like their prefix lengths |
| Routes.MaskCompares | router/internal/dish/router.go:367-369 | masking two addresses compares exactly their first bits |
| Routes.SwapBytes | router/internal/wan/discovery.go:72-79 | the table holds addresses with their bytes in the opposite order |
| Routes.GatewayFlag | router/internal/dish/router.go:355-361 | a gateway row is one with the second flag set |
| Routes.GatewayForDestination | router/internal/dish/router.go:339-384 | the first best of the matching gateway rows by mask and metric, or none exactly when no row matches |
| Routes.LongestGateway | router/internal/dish/router.go:339-384 | with contiguous masks that row has the longest matching prefix and the least metric of those, the first one winning |
| Routes.RouteInterface | router/internal/wan/discovery.go:43-70 | the first of the matching rows with the most mask bits, or no name |
| Routes.LongestInterface | router/internal/wan/discovery.go:43-79 | with contiguous masks that row is the first with the longest matching prefix |
| Routes.LookupsAgree | router/internal/wan/discovery.go:43-79 | over one table the interface lookup never settles for a shorter prefix than the gateway lookup when the gateway's row has nothing behind its mask |
| DishPoller.HoldsNext | router/internal/dish/poller.go:429-445 | writing the next sample into slot k mod n keeps the ring holding the last samples of the stream |
| DishPoller.OrderedHistory | router/internal/dish/router_model.go:196-213 | yields exactly the last samples of the stream, oldest first |
| DishPoller.NewestHistoryValue | router/internal/dish/poller.go:559-565 | is the last sample of the stream |
| DishPoller.BackfillDecodes | router/internal/dish/poller.go:429-445 | a full column offers exactly the last samples of its stream, one second apart, the newest now |
| DishPoller.AcceptsLater | router/internal/dish/poller.go:501-510 | of offered points in time order exactly those later than everything accepted are accepted |
| DishPoller.StepsOwn | router/internal/dish/poller.go:436-444 | each column is treated as if it were alone |
| DishPoller.BackfillAdds | router/internal/dish/poller.go:415-450 | a backfill adds, for a column as long as any, exactly the last samples of its stream that are later than everything accepted before |
| DishPoller.FirstBackfill | router/internal/dish/poller.go:436-444 | the first backfill fills the five series, by name, each from its own column of the answer |
| DishPoller.PowerMeans | router/internal/dish/poller.go:446-449 | the fallback becomes the newest power sample when that is positive, and otherwise stays |
| DishPoller.Poller.Append | router/internal/dish/poller.go:501-510 | over any interleaving of polls and backfills the accepted times of a series strictly increase, its ring holds exactly the accepted points, and no other series is touched |
| DishPoller.Poller.Backfill | router/internal/dish/poller.go:415-450 | nothing without a believed clock or an answer; otherwise each slot of each column is offered once, in order, and the newest power sample becomes the fallback if it is positive |
| DishPoller.LongestColumn | router/internal/dish/poller.go:482-493 | the length of the longest column |
| DishPoller.Poller.StaysOrdered | router/internal/history/ring.go:20-33 | a ring the poller writes never loses its ordered flag |
| WanMonitor.ProbeWindow | router/internal/wan/monitor.go:238-259 | loss and mean time of exactly the samples not before `since`, never dividing by zero |
| WanMonitor.Prune | router/internal/wan/monitor.go:215-220 | drops a front part that lies before the cutoff, up to the first sample that does not |
| WanMonitor.MeasuredBounded | router/internal/wan/monitor.go:238-259 | loss lies in [0,1] and the mean time is not negative |
| WanMonitor.MeasuredMeans | router/internal/wan/monitor.go:238-259 | loss times the samples is the number that failed, and the mean time in milliseconds times the successes is all their time |
| WanMonitor.PruningInvisibleIff | router/internal/wan/monitor.go:215-236 | dropping the oldest samples changes a window if and only if one of them belongs to it |
| WanMonitor.Monitor.Keep | router/internal/wan/monitor.go:212-236 | a round drops exactly the samples at the front that lie before the cutoff; each window equals the one over the full unpruned history if and only if everything dropped so far lies before it, which holds while the clock has not gone back |
| WanMonitor.Monitor.ProbeOnce | router/internal/wan/monitor.go:187-231 | the same for a whole round, with the loss of the round and what goes into the history |
| WanMonitor.ClockBackLosesSamples | router/internal/wan/monitor.go:215-236 | the concrete failing run: three rounds of a monitor with the clock going back before the last, after which the loss published is 0 although a failed probe belongs to the window |
| EventBus.Channel.Send | router/internal/event/bus.go:56-60 | never called on a closed channel; buffers the message exactly when there is room |
| EventBus.Channel.Close | router/internal/event/bus.go:43-46 | never called on a closed channel |
| EventBus.Bus.Subscribe | router/internal/event/bus.go:29-40 | a new registered open channel with room for at least one message, seeing what is published from now on |
| EventBus.Bus.Cancel | router/internal/event/bus.go:40-49 | closes and removes once; repeating it, or cancelling a dropped subscriber, does nothing |
| EventBus.Bus.Publish | router/internal/event/bus.go:52-63 | a subscriber stays exactly if it had room and then has the message; received plus buffered messages are always those published while it was registered, without gaps, and a channel is registered exactly when it is open |
| EventBus.Bus.Receive | router/internal/event/bus.go:29-63 | a receiver gets the messages in the order of publication, and sees the end exactly when it is no longer registered |

## Left out

- Config.LoadConfig: parsing and printing of decimal fractions and of timestamps are functions left open; error messages are not modelled.
- ConfigRuns.StepAgrees: that the numbers and the time a request writes print, that is, read back as themselves, is asked of the formatting; which numbers the library prints so is not modelled.
- ConfigRuns.Manager.Update: an atomic write either succeeds or leaves the file alone; a rename that succeeds before the directory sync fails, so that the file is newer than memory, is not modelled.
- HistoryDatabase.Database.Flush: the SQL engine is a transaction over maps and sequences that commits or fails as a whole; statements, write-ahead log, corruption recovery and row ids beyond their order are not modelled. The RAM tier's answers are an input.
- HistoryTierTheorems.QuarterExact: quarters whose minute rows were partly pruned before a rebuild are only known to merge what was left.
- Routes.GatewayForDestination: splitting and parsing the table's lines is not modelled; rows come parsed, with fields that did not parse marked, and the comparison of masks reads a word as a number bit by bit.
- RouterControl.BuildNetworkSetConfig: fields no mutation names are one opaque value for each service set; the nested loops over networks and their sets are one loop over all sets in the same order. The dialogue with the router around it (revision check, write, readback) is not modelled.
- RouterControl.NetworkMatches: the passphrase is never read back, so nothing is claimed about it.
- DishPoller.Poller.Backfill: the columns of the answer are a list with power last; nothing is claimed for a column shorter than the longest beyond which slots are read. The outages of the answer, the failure counters and the status a fallback is shown in are left out, and so is a sample count beyond 2^63.
- AlertEngine.Engine.Tick: what makes each condition known or active (the evaluation of dish, path and obstruction inputs, the reboot deadline, the obstruction cache) is an input of the tick, and so is whether each alert's write succeeds; the JSON of the saved state is not modelled.
- WanMonitor.Monitor.ProbeOnce: interface discovery and the probes themselves are inputs.
- EventBus.Bus.Publish: goroutines are interleavings of whole operations, as the lock makes them.
- WeightedStats.Percentile: weights are at least one, as the code that builds the list makes them, and percentiles lie in (0, 1], as at its call sites.
- Rounding, NaN and infinities of floats, and the wrap-around of 64-bit integers and durations: numbers are reals and unbounded integers.
- Strings are sequences of characters; invalid UTF-8 is not modelled.
- Locks: every operation is atomic.
- Timeline queries, the list of active outages, and queries of the persistent tier: filters and sorts over the same state.
- Wi-Fi settings other than networks, client names and block schedules: minimal requests with single-field readbacks.
- Failure counters, dish status fields, location, obstruction maps, speed tests, dish controls: mostly case analysis.
- Gateway and WAN discovery by other means, mwan3, probes, counters, notification delivery, HTTP, WebSocket, gRPC, token checks, the dashboard, packaging scripts: input and output.
