# Verification of the SEP2 to SunSpec bridge

The repository is an IEEE 2030.5 client for distributed energy resources, bridged to a SunSpec
Modbus device as AS5438 asks. This project models the logic of its four tasks in Dafny and proves
what their cooperation relies on. `dafny verify dfyconfig.toml` checks everything.

The modules follow the program:

- **The resource model** (`ResourceTypes`, `ResourceGraph`, `ModelUpdates`, `Sep2Model`). Each received
  resource is merged into a set of maps, the links reachable from the entry point are recomputed,
  everything unreachable is swept, and the difference of the links is announced. `Sep2Model.Model`
  is the object updated in place; its methods are proved against functions on its value.
  `ResourceLevels` and `LinkClaims` say which href is linked as what, and from where, without following the
  code's recursion; `Reachability` and `SweepCorrectness` prove the sweep to be an exact garbage collection,
  `UpdateEffects` and `AnnouncedChanges` what one update stores and announces,
  `LinkEvents` and `ModelRuns` that the announced differences telescope over whole runs,
  `ModelSettles` what receiving a resource again does, and `ControlHistory` what happens to one control over
  a run. `ModelCounterexamples` has inputs on which announcements and needs part ways.
- **The scheduler** (`ControlPriority`, `ParameterLayering`, `DeviceControls`, `Schedule`, `SchedulerTask`,
  `SchedulerSafety`, `PostRateRuns`, `QuietAnnouncements`, `ControlPaths`, `ReportOnce`, `SchedulerCounterexamples`).
  Controls are ordered and layered into parameters, and the next change is predicted. The safety results hold over
  all runs of the loop, in which the wait task may broadcast between merging, planning and re-arming.
- **Numbers** (`PowersOfTen`, `MachineInts`, `ScaledValues`, `PercentDerivation`). The saturating fixed-width
  computations are shown equal to exact rounding and clamping for all inputs.
- **The device** (`LimitRegisters`, `LimitConvergence`, `LimitControls`, `SentRegisters`, `LimitDevice`, `ModbusTask`,
  `EnforcedLimits`, `RegisterMemory`, `CurveLayout`, `CurveModels`). The deferred writing of power limits, the task that
  connects, sends and retries, and the address arithmetic of curves.
- **The server connection** (`PollTable`, `PolledLinks`, `SchedulerPolls`, `ResponseQueue`, `Sep2ConnectionTask`).
  The poll table that is kept only from announced differences, the queue of responses, and the gate for retries.

Hypotheses that the code needs and a caller can check are `requires` clauses, and each comes with the
exact condition or with an input on which the property fails without it: hrefs on every item (`AllHrefs`,
`SweepLosesNothing`, `ThroughoutLinksExactly`, `HreflessDeviceLosesItsLinks`), one default control per primacy in a
list (`OneDefaultPerPrimacy`, `ComparatorIsOrder`), one path to a control (`ListedOnce`, `ListedOnceExactly`,
`TwoPathsReportTwice`), one level that needs an href (`Alone`, `LinkIsLastClaim`), no change of a polled kind (`KindsStay`, `PollsFollowDiff`, `ChangedKindKeepsOldPoll`).
That the wait task is not replaced late has its exact condition (`ReportedTwiceExactly`) and input
(`LateRearmingStartsTwice`). That a control stays in the model (`Stays`, `RunResides`) is part of what the
results about one control say.
The one hypothesis without either is that a curve layout fits the 16-bit address space (`Fits`): beyond it the
source's own offsets overflow, which is not modelled.

Clocks, random draws, answers of the server and of the device, and the order of commands are
parameters; each result holds for all of them.

## Model

| member | source | states |
|---|---|---|
| `Reachability.LinksAreMarked` | `crates/sep2-bridge-service/src/scheduler/sep2_model.rs:624-746` | The links of the model are exactly the hrefs reachable from the entry point and the EndDeviceList, stated independently as a marking of each level |
| `LinkClaims.ClaimsExactly` | `crates/sep2-bridge-service/src/scheduler/sep2_model.rs:624-746` | The links come from claims, one for each place that links an href; the claims that are met are exactly those of an independent definition, level by level, with the kind of the level and the poll rate of the list that the level names |
| `LinkClaims.LinkIsLastClaim` | `crates/sep2-bridge-service/src/scheduler/sep2_model.rs:624-746` | The links are exactly the claimed hrefs, and each has the kind and the rate of the last claim of it |
| `LinkClaims.OnlyClaimHolds` | `crates/sep2-bridge-service/src/scheduler/sep2_model.rs:624-746` | So an href that is claimed with one kind and rate only has exactly these |
| `Reachability.LevelsAreClaimed` | `crates/sep2-bridge-service/src/scheduler/sep2_model.rs:624-746` | An href is claimed as a resource of a kind exactly when it is marked on the level of that kind, for all fourteen levels |
| `Reachability.KindOfLevel` | `crates/sep2-bridge-service/src/scheduler/sep2_model.rs:624-746` | An href marked on one level only is linked with the kind of that level, at a rate with which the level claims it |
| `Reachability.SweepKeepsExactlyMarked` | `crates/sep2-bridge-service/src/scheduler/sep2_model.rs:543-596` | Sweeping by the model's own links is a garbage collection: a list stays exactly when its href is marked as reachable, an entity or the MirrorUsagePointList exactly when it has a reachable href, nothing kept is altered, and the EndDeviceList stays |
| `SweepCorrectness.SweepLosesOnlyHrefless` | `crates/sep2-bridge-service/src/scheduler/sep2_model.rs:543-596` | For every model, also one with href-less items: the links after a sweep are those of the model without its href-less items, but for the rate of the MirrorUsagePointList |
| `SweepCorrectness.SweepKeepsLinks` | `crates/sep2-bridge-service/src/scheduler/sep2_model.rs:543-596` | With hrefs everywhere a sweep keeps every link and kind, and keeps every poll rate exactly when the MirrorUsagePointList is not dropped while its link shows its rate |
| `SweepCorrectness.OneSweepIsEnough` | `crates/sep2-bridge-service/src/scheduler/sep2_model.rs:543-596` | One sweep is a fixpoint however deep the orphaned subtree is; without hrefs a second sweep is |
| `SweepCorrectness.SweepLosesNothing` | `crates/sep2-bridge-service/src/scheduler/sep2_model.rs:543-596` | For every model: a sweep loses no link exactly when the model has the same links without its href-less items |
| `SweepCorrectness.EndDevicesHeld` | `crates/sep2-bridge-service/src/scheduler/sep2_model.rs:620-746` | A part of a model that holds all tracked and all href-less items has the same links below its devices, level by level, whenever those links are tracked; the swept model and the model after a repeated update are such parts |
| `SweepCorrectness.SweepKeepsAllExactly` | `crates/sep2-bridge-service/src/scheduler/sep2_model.rs:543-596` | A sweep changes nothing exactly when everything stored has a tracked href |
| `Sep2Model.Model.constructor` | `crates/sep2-bridge-service/src/scheduler/sep2_model.rs:104-143` | A model holds any given stored state, as after a restart |
| `Sep2Model.Model.SetEndDeviceList` | `crates/sep2-bridge-service/src/scheduler/sep2_model.rs:226-266` | The loop that skips devices without an LFDI leaves the model that the specification function gives |
| `Sep2Model.Model.SetControl` | `crates/sep2-bridge-service/src/scheduler/sep2_model.rs:361-467` | Inserting or updating one control in place: the interval is realised on insertion only, and the responses are those of the specification function, which `OneControlAnswered` gives field by field |
| `Sep2Model.Model.SetControlList` | `crates/sep2-bridge-service/src/scheduler/sep2_model.rs:333-359` | The loop over a received control list, its stored ids and all its responses in order |
| `Sep2Model.Model.DropUntrackedResources` | `crates/sep2-bridge-service/src/scheduler/sep2_model.rs:543-596` | The in-place sweep of all twelve collections is the sweep of the value |
| `Sep2Model.Model.ApplyUpdate` | `crates/sep2-bridge-service/src/scheduler/sep2_model.rs:149-207` | Merging, sweeping and diffing in place gives the model and the events of the specification functions; `UpdateStores` says what these leave stored and `UpdateAnnounces` what they announce |
| `UpdateEffects.UpdateStores` | `crates/sep2-bridge-service/src/scheduler/sep2_model.rs:149-596` | What an update stores, for every kind of resource and without the merging functions: the resource as received at its href, a list as the ids of its items in order with the rate received, under each id the last item received with it, a control with the interval it already had or that of its first mention; everything else is as before, and of all that exactly what is marked stays |
| `AnnouncedChanges.UpdateAnnounces` | `crates/sep2-bridge-service/src/scheduler/sep2_model.rs:149-207` | What an update announces: first exactly the links that went, by href and with their kind, then exactly those that are new or changed, by href, each once; and after them only responses |
| `Sep2Model.Model.RefreshKnownLinks` | `crates/sep2-bridge-service/src/scheduler/sep2_model.rs:210-215` | Announces links that bring any table without superfluous entries, however stale, up to date with the model |
| `LinkEvents.ReplayDiff` | `crates/sep2-bridge-service/src/scheduler/sep2_model.rs:600-617` | Entry by entry, what replaying the diff of two sets of links does to any table, also one that agrees with neither |
| `AnnouncedChanges.ChangesAreAnnounced` | `crates/sep2-bridge-service/src/scheduler/sep2_model.rs:600-617` | The diff of two sets of links has exactly the events of the hrefs that differ, each once, removals before additions and both in ascending order |
| `HrefOrder.AtMostIsBefore` | `crates/sep2-bridge-service/src/scheduler/sep2_model.rs:600-617` | The order of hrefs is that of a dictionary: a beginning comes before the whole, and otherwise the first differing character decides |
| `LinkEvents.ReplayTelescopes` | `crates/sep2-bridge-service/src/scheduler/sep2_model.rs:600-617` | Replaying a diff onto the prior links gives the later links |
| `LinkEvents.RefreshChangesNothing` | `crates/sep2-bridge-service/src/scheduler/sep2_model.rs:210-215` | Replaying a refresh on an up-to-date table changes nothing, and equal links have an empty diff |
| `LinkEvents.RefreshRepairs` | `crates/sep2-bridge-service/src/scheduler/sep2_model.rs:210-215` | Replaying a refresh on a table with no superfluous entries gives the links of the model |
| `ModelRuns.Telescoping` | `crates/sep2-bridge-service/src/scheduler/sep2_model.rs:149-207` | Over any run of updates the replayed events give the links of the current model, hrefs and kinds always, and rates too while the MirrorUsagePointList is not dropped from under its link |
| `ModelRuns.ThroughoutExactly` | `crates/sep2-bridge-service/src/scheduler/sep2_model.rs:149-207` | Rates included, the replayed table is that of the model at every point of a run exactly when that list is never dropped from under its link |
| `ModelRuns.UpdateLosesNothing` | `crates/sep2-bridge-service/src/scheduler/sep2_model.rs:149-207` | For any model, with or without hrefs: after one update the replayed table is that of the model (but for the one rate) exactly when the merged model has the same links without its href-less items |
| `ModelRuns.ThroughoutLinksExactly` | `crates/sep2-bridge-service/src/scheduler/sep2_model.rs:149-207` | For any model and any run, with or without hrefs: the replayed table is that of the model (but for the one rate) at every point of the run exactly when no step merges a link that it would not have without href-less items |
| `ModelRuns.TelescopingFromEmpty` | `crates/sep2-bridge-service/src/scheduler/sep2_model.rs:149-215` | The same from the empty model, where a refresh on top changes nothing |
| `ModelSettles.UpdateIsIdempotent` | `crates/sep2-bridge-service/src/scheduler/sep2_model.rs:149-207` | Receiving any resource again, with or without hrefs, linked or not, at any later time, never changes a model whose stored items have hrefs, as every update leaves it; it announces nothing exactly when the first sweep took back no link that comes again and no item of a control list has anything to answer |
| `ModelSettles.OnlyRateIsTakenBack` | `crates/sep2-bridge-service/src/scheduler/sep2_model.rs:149-207` | With hrefs on the received items too, a link comes again exactly when a MirrorUsagePointList gives a rate that its own sweep takes back |
| `ModelSettles.ReceivedAgain` | `crates/sep2-bridge-service/src/scheduler/sep2_model.rs:149-207` | For a model that stores href-less items as well: what a repeated update leaves, that it is the same model exactly when every stored href is still linked, and exactly when it is silent |
| `ModelSettles.ControlsAnsweredAgain` | `crates/sep2-bridge-service/src/scheduler/sep2_model.rs:333-465` | For every control list, also one that mentions a control several times: exactly the responses sent when it is received again |
| `ModelSettles.DistinctAnsweredAgain` | `crates/sep2-bridge-service/src/scheduler/sep2_model.rs:333-465` | If each control is mentioned once, an item is answered again exactly if its control was not kept and its arrival asks for a response |
| `ModelSettles.LinkedUpdateIsQuiet` | `crates/sep2-bridge-service/src/scheduler/sep2_model.rs:149-207` | In particular a resource linked with all its items, each mentioned once, is quiet |
| `ModelCounterexamples.HreflessDeviceLosesItsLinks` | `crates/sep2-bridge-service/src/scheduler/sep2_model.rs:565-595` | Counterexample without hrefs: the list of an href-less device is announced and then forgotten in the same update |
| `ModelCounterexamples.MupRateCanGoStale` | `crates/sep2-bridge-service/src/scheduler/sep2_model.rs:641-649` | Counterexample for the one rate: it stays in the replayed table after the list is dropped |
| `ModelCounterexamples.UnlinkedControlIsAcknowledgedEachTime` | `crates/sep2-bridge-service/src/scheduler/sep2_model.rs:333-465` | Counterexample without a link: a control list nothing links to is swept at once and answered anew each time |
| `ModelCounterexamples.ControlMentionedTwiceIsCancelledEachTime` | `crates/sep2-bridge-service/src/scheduler/sep2_model.rs:333-465` | Counterexample with a repeated control: a linked list that mentions it as cancelled and then as scheduled reports a cancellation each time it is received |
| `ControlHistory.IntervalChosenOnce` | `crates/sep2-bridge-service/src/scheduler/sep2_model.rs:361-432` | While a control stays in the model no run of updates and sweeps changes its realised start and duration |
| `ControlHistory.RealisedWithinBounds` | `crates/sep2-bridge-service/src/scheduler/sep2_model.rs:361-432` | A new control has the interval of its first mention, shifted as drawn and within its randomisation bounds, the duration floored at zero; the stored duration is right exactly when the sum fits a u32 |
| `ControlHistory.ResponsesAreStatusEdges` | `crates/sep2-bridge-service/src/scheduler/sep2_model.rs:361-465` | Over a run the cancelled (superseded) responses for a retained control are one for each change of its status into that state by a mention that asks for specific responses and gives a reply address |
| `ControlHistory.OneControlAnswered` | `crates/sep2-bridge-service/src/scheduler/sep2_model.rs:361-465` | Exactly the events of receiving one control, with their reply address: for a stored one a cancellation or supersession if its status changes into it and specific responses are asked for; for a new one the acknowledgement if it asks for one, and then the start if it is active and in its interval and specific responses are asked for; nothing else |
| `ControlHistory.ArrivalAnsweredOnce` | `crates/sep2-bridge-service/src/scheduler/sep2_model.rs:333-465` | A new control is acknowledged once in the list that brings it, however often that mentions it, exactly if its first mention asks for it, and its start is sent exactly if that mention is active, in its interval and asks for specific responses |
| `ControlPriority.ComparatorIsOrder` | `crates/sep2-bridge-service/src/scheduler/sep2_model.rs:899-922` | The comparator is transitive and asymmetric on a list exactly when no primacy has two defaults in it |
| `ControlPriority.DistinctPrimaciesSuffice` | `crates/sep2-bridge-service/src/scheduler/sep2_model.rs:783-897` | Programs of pairwise distinct primacy never give such a list |
| `ControlPriority.SortSorted` | `crates/sep2-bridge-service/src/scheduler/sep2_model.rs:912-930` | On such a list the stable sort leaves no control after one it outranks |
| `ControlPriority.SortElements` | `crates/sep2-bridge-service/src/scheduler/sep2_model.rs:924-930` | Sorting loses and invents nothing |
| `ControlPriority.FirstOfSortedIsForemost` | `crates/sep2-bridge-service/src/scheduler/sep2_model.rs:912-930` | The first control of any kind after sorting is the least of that kind by primacy, scheduled before default, newest creation time, list order |
| `ParameterLayering.OverlayIsMonoid` | `crates/sep2-bridge-service/src/scheduler/attributes.rs:102-237` | Overlaying attributes has an identity, is associative and idempotent, and the first argument wins |
| `ParameterLayering.OverlayCounts` | `crates/sep2-bridge-service/src/scheduler/attributes.rs:34-91` | The number of active attributes of an overlay lies between the larger count and the sum |
| `ParameterLayering.BaseAttributeLayering` | `crates/sep2-bridge-service/src/scheduler.rs:342-381` | Each base attribute is set exactly when a default in the list has it, or a scheduled control that has it and whose start is no later and whose end is later than now; the value is that of the foremost such control of the unsorted list |
| `ParameterLayering.SettingLayering` | `crates/sep2-bridge-service/src/scheduler.rs:342-381` | Each set_* attribute comes from the foremost default that has it; no scheduled control masks it |
| `ParameterLayering.ParametersAreLayered` | `crates/sep2-bridge-service/src/scheduler.rs:331-381` | Both together for the candidates and the parameters of a device |
| `ParameterLayering.ContributesWithinInterval` | `crates/sep2-bridge-service/src/scheduler.rs:342-381` | A scheduled control contributes nothing before its start and nothing from its end on; from the second of its start it adds its base attributes below those of the controls before it and above those after it |
| `ParameterLayering.CurvesAreThoseLinked` | `crates/sep2-bridge-service/src/scheduler.rs:342-377` | The parameters bring a curve exactly for each href that a base attribute links to and a stored curve has, and bring that curve |
| `DeviceControls.CandidatesExactly` | `crates/sep2-bridge-service/src/scheduler/sep2_model.rs:783-897` | The controls listed for a device are exactly those some path leads to, told in the stored fields: from the device over its FSA list, an FSA, its program list and a program to the program's default control, or to a control of its control list that is scheduled or active and ends later than now; with the primacy of the program |
| `DeviceControls.CandidatesInOrder` | `crates/sep2-bridge-service/src/scheduler/sep2_model.rs:783-897` | They come program by program, each program's scheduled controls in the order of its list and then its default; with `AheadInOrder`, `ProgramsInOrder` and `LookupInOrder` this is the list order that decides ties |
| `DeviceControls.ParametersOfDevice` | `crates/sep2-bridge-service/src/scheduler.rs:331-381` | From the stored resources to the parameters: a device has a base attribute exactly when a default that applies to it has it, or a scheduled control that applies to it and is in its interval, and the value is that of one that no other such control outranks; a set_* attribute likewise from the defaults alone |
| `Schedule.NextIsFirstBoundary` | `crates/sep2-bridge-service/src/scheduler.rs:399-481` | The predicted time is the least start or end after now, and absent exactly when there is none |
| `Schedule.ParametersHoldUntilNext` | `crates/sep2-bridge-service/src/scheduler.rs:399-481` | At every second before the predicted time the ordered controls and the parameters are those of now |
| `Schedule.EndedOweNothing` | `crates/sep2-bridge-service/src/scheduler/sep2_model.rs:877-889` | Filtering out ended controls drops no boundary that lies ahead |
| `Schedule.TimelineEnumerates` | `crates/sep2-bridge-service/src/scheduler.rs:410-481` | Walking from wake-up to wake-up ends, visits every boundary after now once in increasing order, and sends exactly the multiset of responses owed at the outset: a start and a completion for each listed control that lies ahead of it, asks for specific responses and gives a reply address |
| `SchedulerTask.Scheduler.constructor` | `crates/sep2-bridge-service/src/scheduler.rs:79-94` | The loop starts with an arbitrary restored model, no timer and default parameters |
| `SchedulerTask.Scheduler.HandleCommand` | `crates/sep2-bridge-service/src/scheduler.rs:95-214` | One pass of the loop body gives the state and the events of the specification functions, and is three steps of a run in every world in which nothing else happens during it |
| `SchedulerTask.Scheduler.Plan` | `crates/sep2-bridge-service/src/scheduler.rs:135-184` | After the merge: announces post rates and parameters only if they changed, and predicts the next change for the clock as read once |
| `SchedulerTask.Scheduler.Rearm` | `crates/sep2-bridge-service/src/scheduler.rs:186-213` | Replaces the wait task, whatever it has broadcast, unless the prediction is the prior one |
| `SchedulerTask.Scheduler.BroadcastNext` | `crates/sep2-bridge-service/src/scheduler.rs:491-524` | A wait task whose time has come broadcasts its events one by one, in order; each is a step of a run in every world in which it can happen, also in the middle of a pass |
| `SchedulerSafety.ParametersNeverStale` | `crates/sep2-bridge-service/src/scheduler.rs:95-214` | In every run with a clock that never goes back, with the wait task broadcasting at any point of a pass: except between merging an update and planning for it, the parameters broadcast last are those of every second from the last planning to the predicted change, or of all later seconds if none is predicted; and an idle loop has the latest prediction armed until its time |
| `PostRateRuns.RatesOfModel` | `crates/sep2-bridge-service/src/scheduler/sep2_model.rs:750-763` | The rate for the DER is the poll rate of the stored DERList that the device links to, the rate for the readings the post rate of the first mirror usage point of the device |
| `PostRateRuns.PostRatesNeverStale` | `crates/sep2-bridge-service/src/scheduler.rs:95-147` | In every run, except between merging an update and planning for it, the post rates broadcast last are these rates of the current model |
| `QuietAnnouncements.AnnouncedOnlyWhenChanged` | `crates/sep2-bridge-service/src/scheduler.rs:135-184` | In every run parameters and post rates are announced only when they differ from those announced last, or from the defaults if none were |
| `ReportOnce.StartAndCompletionAtMostOnce` | `crates/sep2-bridge-service/src/scheduler.rs:95-214` | In every such run, insertion and wait tasks together report the start of a resident control reached by one path at most twice, and at most once unless the loop replaced a wait task late: after it had reported the start, by one that reports it too; likewise its completion |
| `ReportOnce.ReportedTwiceExactly` | `crates/sep2-bridge-service/src/scheduler.rs:95-214` | A second report is made or armed somewhere in the run exactly when the wait task was replaced late |
| `ReportOnce.StartAndCompletionAfterRestart` | `crates/sep2-bridge-service/src/scheduler.rs:79-214` | Both from any restored model, whether or not it already stores the control |
| `ReportOnce.LateMeansSameTime` | `crates/sep2-bridge-service/src/scheduler.rs:148-210` | Replacing late takes a new prediction for the same second as the wait task that has begun to broadcast: the clock was read before that second, which came before the wait task was aborted |
| `ReportOnce.AtMostOnceUnlessSameTime` | `crates/sep2-bridge-service/src/scheduler.rs:148-210` | A run that never replaces a wait task that has begun to broadcast by one for the same time reports every such start and completion at most once |
| `ReportOnce.LateRearmingReportsTwice` | `crates/sep2-bridge-service/src/scheduler.rs:491-524` | After a late replacement the new wait task need only be left alone for the second report to be made |
| `SchedulerCounterexamples.LateRearmingStartsTwice` | `crates/sep2-bridge-service/src/scheduler.rs:148-210` | The input: an update in second 99 adds a control that starts in second 100 as the armed one does; second 100 comes between reading the clock and the abort, and the run reports the start twice with every hypothesis met |
| `ControlPaths.ListedPerPath` | `crates/sep2-bridge-service/src/scheduler/sep2_model.rs:783-897` | A control that is ahead is listed once for each path through an FSA, a program and a mention of it, and otherwise not at all |
| `ControlPaths.ListedOnceExactly` | `crates/sep2-bridge-service/src/scheduler/sep2_model.rs:783-897` | It is listed at most once at all times exactly if at most one path leads to it or its status keeps it from being listed |
| `ControlPaths.EachPathReports` | `crates/sep2-bridge-service/src/scheduler.rs:410-481` | When its start or completion is next, it is predicted once for every path if the control asks for specific responses and gives a reply address, and otherwise not at all |
| `SchedulerCounterexamples.TwoPathsReportTwice` | `crates/sep2-bridge-service/src/scheduler.rs:410-481` | Counterexample with two FSAs that link one program list: the start is predicted twice |
| `SchedulerSafety.ReportedAtOwnTime` | `crates/sep2-bridge-service/src/scheduler.rs:418-465` | A prediction reports a control only at its own start or end, at most as often as it is listed |
| `SchedulerSafety.PredictedInTurn` | `crates/sep2-bridge-service/src/scheduler.rs:410-481` | Exactly the events of a prediction and their order: control by control in order of priority, its start and then its completion if they are in the predicted second, the control asks for specific responses and gives a reply address |
| `SchedulerSafety.MergeReports` | `crates/sep2-bridge-service/src/scheduler/sep2_model.rs:434-463` | Merging a control list reports a start at most once, only for a control it inserts and that has begun, and never a completion |
| `ScaledValues.RescaleExact` | `crates/sep2-bridge-service/src/scaled_value.rs:27-66` | For every value of the four types and all i16 scale factors the saturating 64-bit computation is the exact product or quotient by a power of ten, rounded half away from zero and clamped; no intermediate overflows |
| `ScaledValues.RescaleMonotone` | `crates/sep2-bridge-service/src/scaled_value.rs:27-66` | Rescaling keeps order |
| `ScaledValues.RescaleWithinHalfStep` | `crates/sep2-bridge-service/src/scaled_value.rs:27-66` | The result is within half a step of the real value unless it is clamped |
| `ScaledValues.RescaleRoundTrip` | `crates/sep2-bridge-service/src/scaled_value.rs:27-66` | Rescaling to a finer scale and back is the identity when it does not saturate |
| `PercentDerivation.WSetPctExact` | `crates/sep2-bridge-service/src/modbus_connection.rs:722-745` | The set-point percentage is the exact rounded quotient, clamped, for all scale factors, never the not-implemented value; absent exactly for a zero rating |
| `PercentDerivation.WMaxLimPctExact` | `crates/sep2-bridge-service/src/modbus_connection.rs:747-770` | The same for the export percentage |
| `PercentDerivation.ExportLimitIsConservative` | `crates/sep2-bridge-service/src/modbus_connection.rs:747-831` | The export percentage of the rating never exceeds the limit in watts, and one step more would unless it is already the largest |
| `PercentDerivation.ImportLimitIsConservative` | `crates/sep2-bridge-service/src/modbus_connection.rs:722-831` | The import percentage never asks for more than the limit in watts |
| `LimitRegisters.DeferredWhen` | `crates/sep2-bridge-service/src/modbus_connection.rs:974-1157` | A send or retry defers something exactly when a percentage has to be derived and the rating is absent or zero |
| `LimitRegisters.RetryWithoutRating` | `crates/sep2-bridge-service/src/modbus_connection.rs:974-1157` | A retry without the rating writes nothing |
| `LimitRegisters.LimitsStandBetween` | `crates/sep2-bridge-service/src/modbus_connection.rs:675-693` | A full send writes every word once and in order, the limits between the registers sent before and those sent after |
| `LimitConvergence.RetryCompletes` | `crates/sep2-bridge-service/src/modbus_connection.rs:974-1157` | A deferred send followed by the retry that finds the rating gives the registers of one send with it, for all parameters |
| `LimitConvergence.DeferralConverges` | `crates/sep2-bridge-service/src/modbus_connection.rs:974-1157` | A send and any number of retries end with the registers of one send with the first reading that has a rating, no longer pending; without such a reading, with those of the first send |
| `LimitConvergence.HoldsAfterSend` | `crates/sep2-bridge-service/src/modbus_connection.rs:974-1157` | After a complete send every register it wrote holds its target: none is written twice with different values |
| `LimitConvergence.WritesInOrder` | `crates/sep2-bridge-service/src/modbus_connection.rs:1012-1157` | A send or retry writes each limit register at most once and in a fixed order: the percentage limit's enablement and value, the set point's enablement, percentage and watts, and the mode last |
| `LimitConvergence.HoldsAfterRetry` | `crates/sep2-bridge-service/src/modbus_connection.rs:974-1157` | A retry keeps that true, whether or not the rating has appeared, and its pending result is right |
| `LimitControls.ExportLimitIsEnforced` | `crates/sep2-bridge-service/src/translation.rs:612-673` | From a DERControlBase to the registers: with the rating known an export limit leaves the percentage limit enabled, implemented, within the export limit in watts and within any explicit percentage; `RegistersAreAsAsked` gives the contents for all limits and set points |
| `LimitControls.ImportLimitIsEnforced` | `crates/sep2-bridge-service/src/translation.rs:648-656` | An import limit that no target or fixed set point overrides is in force as an enabled, implemented percentage set point within the limit in watts, and the watts register is left alone |
| `LimitControls.LimitsAreEnforcedInTheEnd` | `crates/sep2-bridge-service/src/modbus_connection.rs:974-1157` | Both together with the deferral: after any number of attempts without the rating, the first reading that has it leaves the limits in force and nothing pending |
| `LimitControls.ProtectionKeptWhilePending` | `crates/sep2-bridge-service/src/modbus_connection.rs:1060-1157` | Until the rating is known the registers of an export limit, and all set-point registers of an import limit, keep their values |
| `SentRegisters.RegistersAreAsAsked` | `crates/sep2-bridge-service/src/translation.rs:612-673` | For every control, with or without site limits mapped, and every device: the exact contents of all six limit registers after one send. The percentage limit is the smaller of the explicit hundredths, exactly rescaled, and the export limit's exact percentage of the rating, or disabled; the set point is the fixed percentage, else the target power in watts with its percentage once rated, else the import limit's percentage, else disabled. What needs a rating that is missing keeps its registers and alone leaves something pending |
| `SentRegisters.RegistersAreAsAskedInTheEnd` | `crates/sep2-bridge-service/src/modbus_connection.rs:974-1157` | The same after any number of deferred attempts, under the first reading that has the rating |
| `EnforcedLimits.ConnectedDeviceEnforces` | `crates/sep2-bridge-service/src/modbus_connection.rs:219-329` | Whenever the task is connected and nothing is pending, which it is while the rating is reported, the limits of the control last sent are in force in the device, derived from a rating it has reported |
| `EnforcedLimits.ConnectedDeviceIsAsAsked` | `crates/sep2-bridge-service/src/modbus_connection.rs:219-329` | Whenever the task is connected to a device with model 704, all six limit registers hold what the control last sent asks for, as far as the rating last read allows, and something is pending exactly if a rating is needed and missing |
| `LimitControls.WrittenLimitsImplemented` | `crates/sep2-bridge-service/src/modbus_connection.rs:1012-1157` | Exactly when a written percentage or power is a limit and not the value for "not implemented": a derived percentage always, an explicit one or a power when its exact rescaled value stays short of that value |
| `LimitControls.FullPercentageIsNotImplemented` | `crates/sep2-bridge-service/src/modbus_connection.rs:1012-1079` | Counterexample: an explicit limit of 100 % on a device that counts in thousandths is enabled with a percentage that reads as not implemented |
| `LimitDevice.Device.WritePoint` | `crates/sep2-bridge-service/src/modbus_connection.rs:696-705` | A write is carried out or lost; it counts as done only when answered |
| `LimitDevice.Device.SendExport` | `crates/sep2-bridge-service/src/modbus_connection.rs:1012-1079` | The percentage-limit part, read and written step by step: on success exactly the writes of the specification in order, on failure a beginning of them |
| `LimitDevice.Device.SendSetControl` | `crates/sep2-bridge-service/src/modbus_connection.rs:1080-1126` | The same for the set-point enablement and percentage |
| `LimitDevice.Device.SendLimits` | `crates/sep2-bridge-service/src/modbus_connection.rs:974-1157` | The same for the whole function, fresh or retry, with the right deferral flag |
| `LimitDevice.Device.SendParameters` | `crates/sep2-bridge-service/src/modbus_connection.rs:675-693` | The same for a full send of new parameters |
| `ModbusTask.Task.SendNew` | `crates/sep2-bridge-service/src/modbus_connection.rs:261-281` | A full send records its parameters as sent only when complete; the connection is kept exactly if every exchange was answered |
| `ModbusTask.Task.Retry` | `crates/sep2-bridge-service/src/modbus_connection.rs:282-303` | A retry sends the pending writes only, keeps every register true to the parameters, and clears the flag exactly when the rating is known |
| `ModbusTask.Task.RunOnce` | `crates/sep2-bridge-service/src/modbus_connection.rs:219-329` | After every turn: the task is connected exactly if it was or a new connection came up, every exchange was answered, and so was a poll that was due; if connected with parameters p last sent, a full send of p completed on this connection, the pending flag is right and every register of p that is not pending holds its target; the current parameters are the last sent; a new connection and new parameters get a full send, parameters already sent only what is pending |
| `RegisterMemory.DecodeEncode` | `crates/sep2-bridge-service/src/modbus_connection.rs:832-847` | Values of the four types survive storage in registers |
| `RegisterMemory.EncodedBigEndian` | `crates/sep2-bridge-service/src/modbus_connection.rs:832-847` | Read as one unsigned number, most significant word first, the words stored are the value, or for a negative value its two's complement |
| `RegisterMemory.WriteWords` | `crates/sep2-bridge-service/src/modbus_connection.rs:832-847` | Writing consecutive registers in place changes those registers and no others |
| `CurveLayout.CurveIsShown` | `crates/sep2-bridge-service/src/modbus_connection.rs:1617-1634` | A written curve reads back as its count and all its points, and only its count and active points changed |
| `CurveModels.ConvertCurve` | `crates/sep2-bridge-service/src/translation.rs:1261-1289` | The conversion succeeds exactly when every coordinate fits the register type of the axis it goes to, and then carries the coordinates and multipliers in the device's axis order |
| `CurveModels.CurvesTileTheSet` | `crates/sep2-bridge-service/src/modbus_connection.rs:1552-1587` | The first set follows the fixed part of the model, and the regions of the three trip curves, each its own part and its points, follow one another without gap or overlap from the set's header to the next set |
| `CurveModels.RegionsAreDisjoint` | `crates/sep2-bridge-service/src/modbus_connection.rs:1552-1587` | No register lies in two of the regions, nor is it the request to adopt |
| `CurveModels.WriteCurve` | `crates/sep2-bridge-service/src/modbus_connection.rs:1617-1634` | The loop that writes a curve point by point into the registers leaves the specified memory |
| `CurveModels.WriteTripCurve` | `crates/sep2-bridge-service/src/modbus_connection.rs:1593-1635` | A curve is written exactly when it is no longer than the device supports |
| `CurveModels.WriteTripCurves` | `crates/sep2-bridge-service/src/modbus_connection.rs:1640-1703` | Writing up to three curves in place and asking to adopt them leaves the specified memory and reports whether any was written |
| `CurveModels.TripCurvesAreShown` | `crates/sep2-bridge-service/src/modbus_connection.rs:1640-1703` | Afterwards the registers of every accepted curve hold its count and its rescaled points in its own place, and the set is asked to be adopted exactly when one was accepted |
| `CurveModels.TripPointsPresent` | `crates/sep2-bridge-service/src/modbus_connection.rs:1541-1635` | What the optional points then show: the count always, and each coordinate at its exact rescaled and bounded value, or nothing exactly when that value reaches the one for "not implemented" |
| `CurveModels.TripFrame` | `crates/sep2-bridge-service/src/modbus_connection.rs:1640-1703` | No other register changes |
| `CurveModels.OnlyTargetSetChanges` | `crates/sep2-bridge-service/src/modbus_connection.rs:1552-1587` | Apart from the request to adopt, every change lies in the curves of set 2, so never in set 1 |
| `CurveModels.TranslatedTripCurveArrives` | `crates/sep2-bridge-service/src/translation.rs:1261-1289` | A curve received from the server reads back from the device with its axes swapped and each coordinate rescaled from its own multiplier |
| `CurveModels.WriteVoltCurve` | `crates/sep2-bridge-service/src/modbus_connection.rs:1817-1877` | The volt-curve writer leaves the specified memory and returns the address exactly when it wrote |
| `CurveModels.VoltCurvesTile` | `crates/sep2-bridge-service/src/modbus_connection.rs:1780-1816` | The first volt curve follows the fixed part of the model, and each curve, its own part and its points, is followed by the next without a gap |
| `CurveModels.VoltCurveIsShown` | `crates/sep2-bridge-service/src/modbus_connection.rs:1780-1877` | The registers of curve 2 hold the count and the rescaled points of an accepted volt curve, and nothing outside them, in particular curve 1, changes |
| `CurveModels.VoltPointsPresent` | `crates/sep2-bridge-service/src/modbus_connection.rs:1780-1877` | Its optional points show each coordinate, or nothing exactly when its exact rescaled value reaches the one for "not implemented" |
| `PollTable.Connection.Subscribe` | `crates/sep2-bridge-service/src/sep2_connection.rs:257-293` | Subscribing updates the rate of an established poll, starts one for a kind that is polled, and otherwise does nothing |
| `PollTable.Connection.Dispatch` | `crates/sep2-bridge-service/src/dispatch.rs:28-53` | Dispatching the scheduler's events in order leaves the specified polls |
| `PollTable.PollsFollowDiff` | `crates/sep2-bridge-service/src/sep2_connection.rs:250-302` | After a diff the polls are those the replayed links call for exactly when no polled href was announced with another kind |
| `PollTable.PollsFollowTheModel` | `crates/sep2-bridge-service/src/sep2_connection.rs:250-302` | From any model and the polls its links call for, through any interleaving of updates, refreshes and connection resets, the polls are exactly those of pollable kind among the announced links, at their rate or the default; these are the links of the current model but for the one rate, and that one too while it is kept |
| `PolledLinks.LevelIsPolled` | `crates/sep2-bridge-service/src/sep2_connection.rs:250-302` | An href marked on one level only is polled exactly if that level is not one of list items, as a resource of the level's kind and at a rate with which the level claims it, or the default rate |
| `PolledLinks.ListsArePolled` | `crates/sep2-bridge-service/src/sep2_connection.rs:250-302` | So every control list, curve list, default control, program list, FSA list and DER list marked by its own level alone is polled |
| `PollTable.RefreshSetsUpPolls` | `crates/sep2-bridge-service/src/dispatch.rs:28-53` | After a restart with a stored model the first refresh sets up exactly the polls the model calls for |
| `PollTable.PollsAfterRestart` | `crates/sep2-bridge-service/src/sep2_connection.rs:250-302` | From then on the polled hrefs are those of the model always, and the rates too while the one rate is kept since the last refresh |
| `SchedulerPolls.PollsFollowTheScheduler` | `crates/sep2-bridge-service/src/scheduler.rs:95-214` | In every run of the scheduler, wait tasks included, dispatching everything it broadcast keeps the polls exactly those of the announced links, which are those of the model at that moment but for the one rate, and that one too while it is kept |
| `SchedulerPolls.PollsFollowAfterRestart` | `crates/sep2-bridge-service/src/sep2_connection.rs:250-302` | In particular from a restored model and no polls, once the active resources are refreshed |
| `PollTable.ChangedKindKeepsOldPoll` | `crates/sep2-bridge-service/src/sep2_connection.rs:263-279` | Counterexample: an href that turns from one polled kind to another keeps the poll of its old kind |
| `ResponseQueue.Queue.PushBack` | `crates/sep2-bridge-service/src/sep2_connection.rs:323-334` | Queueing with the size limit, as a loop, is the specification function |
| `ResponseQueue.PushedDropsOldest` | `crates/sep2-bridge-service/src/sep2_connection.rs:323-334` | Queueing drops the oldest response, and only when 29 others wait |
| `ResponseQueue.Queue.SendAll` | `crates/sep2-bridge-service/src/sep2_connection.rs:786-857` | The sending loop, which pops and pushes back, is the specification function |
| `ResponseQueue.SentStopsAtFailure` | `crates/sep2-bridge-service/src/sep2_connection.rs:786-857` | A pass settles the responses before the first retriable failure, each as delivered if its own answer accepts it and as discarded if not, leaves that one at the head, and asks for a retry exactly then |
| `ResponseQueue.Conservation` | `crates/sep2-bridge-service/src/sep2_connection.rs:323-334` | Over any run every queued response is accounted for in order: delivered, rejected, dropped, or still queued; fewer than 30 are |
| `Sep2ConnectionTask.LeftClears` | `crates/sep2-bridge-service/src/sep2_connection.rs:485-577` | A slot is cleared exactly by an accepted transfer of it |
| `Sep2ConnectionTask.TransfersKeepTheirRate` | `crates/sep2-bridge-service/src/sep2_connection.rs:485-577` | After an accepted transfer of a slot none is even attempted before more than its post rate has elapsed, unless the connection is reset or the capabilities change; the log of the task always satisfies the premise |
| `Sep2ConnectionTask.Task.SendSlot` | `crates/sep2-bridge-service/src/sep2_connection.rs:485-577` | One transfer: of the value waiting in the slot, when due at the slot's own rate and linked by the DER's link for it; the value stays unless accepted, and an accepted one sets its time |
| `Sep2ConnectionTask.Task.Receive` | `crates/sep2-bridge-service/src/sep2_connection.rs:250-378` | What each command does to polls, slots, responses, post rates, last-sent times and knowledge of the server |
| `Sep2ConnectionTask.Task.Connect` | `crates/sep2-bridge-service/src/sep2_connection.rs:399-469` | Reaching the server and finding or registering the device: an entry point is taken exactly if it has an EndDeviceList, a device exactly if the list is empty and it was registered or has our device alone, and an error is returned exactly for a list that brings another device or not the one it counts; every thing known was reached through the one before |
| `Sep2ConnectionTask.Task.Prepare` | `crates/sep2-bridge-service/src/sep2_connection.rs:390-483` | The first part of a pass: with the device found and its PIN no problem the queue is sent as specified, and then the DER is learnt exactly if it is the only one in the list that the device links to |
| `Sep2ConnectionTask.Task.Pass` | `crates/sep2-bridge-service/src/sep2_connection.rs:390-582` | A pass has nothing to retry exactly when everything is known, every response is sent, each slot is empty, without a link or sent no longer ago than its rate, and the PIN was not found wrong in this pass; what it learns is exactly what the answers tell; values are sent only with everything known and no response queued |
| `Sep2ConnectionTask.Task.Turn` | `crates/sep2-bridge-service/src/sep2_connection.rs:226-582` | At every wait for a command a retry is scheduled exactly after an unfinished pass; while it is, only a wake-up or a reset sends anything; slots, last-sent times and post rates change only by the command and by accepted transfers of the latest value; the queue of responses and the knowledge of the server change exactly by the command and the pass, and the task ends exactly on a list that is refused |

## Left out

- HTTP, TLS, Modbus transport, channels and timeouts: their results are inputs, channels are lossless and in order, and a timeout counts as a failed exchange.
- Persistence of the model: a restart begins with an arbitrary stored state.
- Most of the translation between the two data models (enumerations, flags, capabilities, status and metering): one branch settles each. Active power and curves are modelled.
- The 39 control attributes as a record: they are maps from attribute names to values, the base attributes apart from the set_* ones.
- Clocks that go backwards, the limits of date arithmetic and overflow of 64-bit times; a pass of the server connection happens at one instant.
- Negative randomisation ranges: the source then asks for a draw from an empty range, for which no draw exists here.
- The order that the sort leaves when one primacy has two defaults: the comparator is then no order, and the source's sort may then leave any, or panic.
- Which of two curves with one href is found: the source takes the first of a hash map's order, the model the one of least MRID.
- Where within merging or planning a wait task broadcasts: each of merging, planning and re-arming is one step, before or after which it may; only the order within the log differs.
- Exactly-once start and completion responses for the running task: a late wake-up or an update in the boundary second can skip one. They are exact for the timely walk of `Schedule.TimelineEnumerates`; for the task they are at most one, or two exactly after a late replacement of the wait task (`ReportOnce.ReportedTwiceExactly`).
- The PIN as a gate: the registration is remembered before it is compared, so a wrong PIN holds up one pass only. `Sep2ConnectionTask.Task.Pass` says so; nothing stronger holds.
- Meter reading MRIDs and the registration of a mirror usage point: a transfer of readings is one exchange that succeeds or fails.
- The polling of the entry point itself, which only sends a reset when its answer changes.
- The other registers of a full send: they are words without meaning sent before and after the limits; curves are modelled apart from the task, with all exchanges answered.
- Registers of the device that change by themselves or by another writer, and scale factors that change while connected.
- SunSpec group lengths and point offsets: the layouts are parameters, constrained only to be well formed.
- A change of the rating after the limits are written: the source does not derive the percentages again, and the model does not either.
