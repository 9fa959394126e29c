# Verified models of Brave browser state machines

Dafny models of six pieces of the Brave browser repository that keep state over long runs, loop over it or
do arithmetic whose edges matter, with proofs of what they promise. `dafny verify dfyconfig.toml` checks
everything.

Each stateful piece has two layers. A module of functions on values says what one event does to the whole
state and what an arbitrary finite run of events does (`Step`, `Exec`); the theorems are about every such
run. A module of classes has the fields, branches and loops of the source; every method is proved to do to
its fields exactly what the function does to the values, and a method `Run` shows that any run of the
objects is a run of the state machine, so the theorems hold of the objects.

| Files | Subject |
|---|---|
| `RefCounting`, `EphemeralStorage`, `EphemeralAccounting`, `EphemeralRuns`, `EphemeralHolders`, `EphemeralTheorems`, `EphemeralEffects`; objects: `EphemeralTabHelper`, `EphemeralBrowser` | lifetimes of ephemeral storage over many tabs, with keep-alive lists, delayed clearing and a shared registry of weak pointers |
| `StatsPing`, `StatsTheorems`, `PingCounts`, `ThresholdTheorems`, `PingEffects`; objects: `StatsUpdater` | the usage ping and the threshold ping: preferences, timers and one shared loader, across cancellations and restarts |
| `Calendar`, `YmdStrings` | Gregorian dates, ISO weeks and the text comparison the pings rely on |
| `Bisect` | the search for the first broken release |
| `FeatureCsv`, `CommandLineHelper` | reading, merging and writing feature switches |
| `ShieldsCounters`, `ShieldsClearing` | counting blocked resources once per page; clearing shields settings by time |
| `TestIterations` | choosing the iteration of a test to report, and the suite counts |

## What the model takes for granted

- The keep-alive delay does not change during a run, and delayed tasks with equal delay run in posting order.
- The hash behind namespace ids is any function. Only what `DomainStorageIsLive` and `StorageIsNewIffUnused` say
  about local namespaces, and `SessionIsNewIffOwn`, is for a hash that gives no two strings the same id.
- `CreateSessionStorageNamespace` and `TLDEphemeralLifetime::GetOrCreate` hand out a new reference to the live
  object with a key, or create it; dropping the last reference destroys it and frees the key. A profile has one
  storage partition.
- Replacing or destroying a loader drops its callback, and a request to an empty URL never succeeds.
- `MaybeDoThresholdPing` asks the startup timer, so it is called, and a ping completes successfully, only while
  the updater is started and not stopped, or once the threshold check is made.
- The date, week and month of one ping are one reading of the clock; the check for "already pinged today" is an
  earlier or equal reading. Local time has a fixed offset.
- `SplitString` splits at commas and trims ASCII whitespace; the last value appended for a switch wins.
- A release answers a bisection question the same way whenever it is asked.

## Where the code does not do what its documentation says

- `find_first_broken_version` is meant to return the first broken release. When every answer inside the loop is
  yes it returns the release before the last one, which works. `FindFirstBrokenVersion` and `MonotoneMeetsBroken`
  give the exact condition under which the report is right, `ReportsWorkingRelease` an input for which it is not.
- `json2xunit.py` promises a successful iteration whenever there is one. `SuccessPickedIff` is the exact condition
  on scores, `SuccessPickedBelowBound` a bound on output length that guarantees it, `BoundIsReached` and
  `LongFailureIsPicked` inputs beyond it.
- A call of `MaybeDoThresholdPing` that reaches the threshold while the first standard ping is in flight is taken
  for that of an existing user: the threshold ping is disabled for good. `QueryStoredIffFirstAckComesFirst` and
  `EarlyCallLosesThresholdPing` give the exact condition, `ThresholdPingCanBeLost` a run.
- A tab is meant to be on the storage of the domain it shows. `CommitKeepsTabOnItsDomain` says exactly when a
  committed navigation leaves it there and `TabStaysOnItsDomain` for which runs it always is; giving up a navigation
  for one back to the domain shown strands it (`AbandonedSwitchStrandsTab`).
- The daily flag compares dates as text. `EveryAckIsDaily` is exact; `YearTenThousandComparesSmaller` is an input
  for which the comparison is wrong.
- The weekly and monthly flags remember only the number within the year. `WeeklyCountsWeeks` and
  `MonthlyCountsMonths` say exactly when they still count weeks and months: when no acknowledged ping comes in a new
  week (month) with the number of that of the ping before it. Gaps below 358 (335) days are enough
  (`WeeklyCountsWeeksWithoutLongGaps`, `MonthlyCountsMonthsWithoutLongGaps`), and these bounds are tight;
  `WeekCanBeMissed` and `MonthCanBeMissed` are runs in which the second ping of two says otherwise.

## Model

| member | source | states |
|---|---|---|
| RefCounting.GetOrCreateAccounts | chromium_src/content/browser/tld_ephemeral_lifetime.cc:65-75 | looking up or creating keeps every counter equal to the number of references held, and keys and live objects one to one |
| RefCounting.ReleaseAccounts | chromium_src/content/browser/tld_ephemeral_lifetime.cc:40-54 | dropping one reference keeps the accounts for what the others hold; the last one frees object and key |
| RefCounting.AssignAccounts | browser/ephemeral_storage/ephemeral_storage_tab_helper.cc:150-153 | assigning a looked-up reference to a slot that held another keeps the accounts |
| RefCounting.ReleaseAllAccounts | browser/ephemeral_storage/ephemeral_storage_tab_helper.cc:68-71 | clearing a whole list of references keeps the accounts for what the others hold |
| EphemeralStorage.IndexOfKey | browser/ephemeral_storage/ephemeral_storage_tab_helper.cc:96-99 | the search stops at the first entry with the key, or at the end when there is none |
| EphemeralAccounting.KeepAliveSound | browser/ephemeral_storage/ephemeral_storage_tab_helper.cc:125-144 | pushing onto both lists keeps the counters equal to what is held |
| EphemeralAccounting.TakeSessionSound | browser/ephemeral_storage/ephemeral_storage_tab_helper.cc:155-176 | freeing the session namespace before asking for the new one keeps the counters right |
| EphemeralAccounting.CreateAreasSound | browser/ephemeral_storage/ephemeral_storage_tab_helper.cc:113-180 | a whole switch of storage keeps the counters right and never uses an identity twice |
| EphemeralAccounting.ClearLocalSound | browser/ephemeral_storage/ephemeral_storage_tab_helper.cc:104-111 | erasing the first match drops exactly one reference, or none |
| EphemeralAccounting.CloseSound | browser/ephemeral_storage/ephemeral_storage_tab_helper.cc:66-71 | closing a tab, destructor included, drops all it held and nothing else |
| EphemeralRuns.ClearPopsOldest | browser/ephemeral_storage/ephemeral_storage_tab_helper.cc:91-111 | when the front entries have the key, the two independent searches erase exactly the front of both lists |
| EphemeralRuns.CreateAreasQueue | browser/ephemeral_storage/ephemeral_storage_tab_helper.cc:125-144 | a switch posts one clearing task, due after the delay and for the lifetime left, exactly when it keeps storage alive |
| EphemeralRuns.FitsPush | browser/ephemeral_storage/ephemeral_storage_tab_helper.cc:128-143 | a push keeps entries, clearing tasks and push history in step, however often the same domain was left before |
| EphemeralRuns.FitsPop | browser/ephemeral_storage/ephemeral_storage_tab_helper.cc:91-102 | so does a clearing that is due |
| EphemeralRuns.RunTaskKeepsTab | browser/ephemeral_storage/ephemeral_storage_tab_helper.cc:91-111 | running the first due task, whichever tab it is for, keeps every tab's lists in step with its pending tasks |
| EphemeralRuns.NavigationKeepsTab | browser/ephemeral_storage/ephemeral_storage_tab_helper.cc:73-89 | so does a navigation in the tab or in another one |
| EphemeralRuns.TakeAreasSlots | browser/ephemeral_storage/ephemeral_storage_tab_helper.cc:146-179 | after a switch the lifetime is for the new domain and the local namespace is the one named after it; the lists are untouched |
| EphemeralRuns.StepBalanced | browser/ephemeral_storage/ephemeral_storage_tab_helper.cc:55-180 | every step keeps each counter equal to the number of references all tabs hold |
| EphemeralRuns.RunBalanced | browser/ephemeral_storage/ephemeral_storage_tab_helper.cc:55-180 | so every run does, and its tasks come due in queue order |
| EphemeralRuns.RunTab | browser/ephemeral_storage/ephemeral_storage_tab_helper.cc:91-144 | in every run, the lists of an open tab are its last pushes, one for each pending task, in task order |
| EphemeralTheorems.KeepAliveIsExact | browser/ephemeral_storage/ephemeral_storage_tab_helper.cc:91-144 | erasing by key refines the timestamped specification: entries leave only after their delay, oldest first, and once no task is overdue the lists are exactly the entries younger than the delay |
| EphemeralTheorems.KeepAliveListsStayPaired | browser/ephemeral_storage/ephemeral_storage_tab_helper.cc:125-153 | the two lists stay equally long, and at each position the local namespace is the one named after the lifetime's domain |
| EphemeralHolders.LiveWhileHeld | browser/ephemeral_storage/ephemeral_storage_tab_helper.cc:113-180 | in every run the object of any key, lifetime or namespace, is alive exactly while some slot or keep-alive entry is for the key, and its counter is their number |
| EphemeralHolders.DomainStorageIsLive | browser/ephemeral_storage/ephemeral_storage_tab_helper.cc:113-180 | in every run a domain's lifetime, and for a collision-free hash its local namespace, is alive exactly while some tab is on the domain or keeps it alive, and its counter is the number of both |
| EphemeralTheorems.SecuredStorageIsFound | browser/ephemeral_storage/ephemeral_storage_tab_helper.cc:146-179 | storage somebody else or a keep-alive list refers to is found again by any tab of the profile that goes to its domain |
| EphemeralTheorems.ReturnWithinDelay | browser/ephemeral_storage/ephemeral_storage_tab_helper.cc:128-143 | coming back before the delay is over, in any tab of the profile and after anything else happened, gives the very same lifetime and local storage |
| EphemeralTheorems.OtherTabSharesStorage | browser/ephemeral_storage/ephemeral_storage_tab_helper.cc:146-153 | going to a domain another tab of the profile is on shares that tab's lifetime and local storage |
| EphemeralTheorems.StorageIsNewIffUnused | browser/ephemeral_storage/ephemeral_storage_tab_helper.cc:146-179 | going to a domain gives a lifetime, and for a collision-free hash a local namespace, that did not exist before exactly when nobody is on the domain or keeps it alive, and the live one otherwise |
| EphemeralTheorems.ReturnTooLateStartsAfresh | chromium_src/content/browser/tld_ephemeral_lifetime.cc:65-75 | in particular, after everybody has left, both are new |
| EphemeralTheorems.SessionStorageIsRenewed | browser/ephemeral_storage/ephemeral_storage_tab_helper.cc:155-176 | whatever the hash, unless something else holds a namespace under the same id, every switch gives a session namespace that did not exist before |
| EphemeralTheorems.SessionIsNewIffOwn | browser/ephemeral_storage/ephemeral_storage_tab_helper.cc:155-176 | in every run, for a collision-free hash, a switch gives a new session namespace exactly when nothing but the tab's own session slot holds one under the id |
| EphemeralTheorems.CommitKeepsTabOnItsDomain | browser/ephemeral_storage/ephemeral_storage_tab_helper.cc:73-89 | from any state, a committed main-frame navigation leaves the tab on the storage of the domain it shows exactly when it changed the domain shown or the tab was there already |
| EphemeralTheorems.TabStaysOnItsDomain | browser/ephemeral_storage/ephemeral_storage_tab_helper.cc:73-89 | over every run in which each main-frame navigation of a tab is committed before the next is ready, the tab is on the storage of the domain it shows whenever none is awaited |
| EphemeralTheorems.AbandonedSwitchStrandsTab | browser/ephemeral_storage/ephemeral_storage_tab_helper.cc:82-86 | a switch given up for a navigation back to the domain shown leaves the tab on the storage of a domain it never showed |
| EphemeralEffects.DueTaskClears | browser/ephemeral_storage/ephemeral_storage_tab_helper.cc:91-102 | in every run, running a due task takes it off the queue and the first entry off each list of its tab; every other tab stays as it is, and a closed tab too |
| EphemeralEffects.NothingDueNothingCleared | browser/ephemeral_storage/ephemeral_storage_tab_helper.cc:134-143 | while no task is due, nothing is cleared |
| EphemeralEffects.OverdueTasksDrain | browser/ephemeral_storage/ephemeral_storage_tab_helper.cc:134-143 | from every state of a run, running at most as many tasks as there are leaves none overdue, at the same time |
| EphemeralEffects.ExpiredEntriesGo | browser/ephemeral_storage/ephemeral_storage_tab_helper.cc:91-144 | and then every open tab holds exactly the entries it had put by that are younger than the delay |
| EphemeralEffects.OtherNavigationsChangeNothing | browser/ephemeral_storage/ephemeral_storage_tab_helper.cc:73-89 | a navigation in a subframe, in the same document, in the same domain or without URL changes nothing |
| EphemeralEffects.SwitchKeepsWhatTheTabHad | browser/ephemeral_storage/ephemeral_storage_tab_helper.cc:113-180 | every other one gives the tab storage of the new domain; with keep-alive on, both lists grow by what the tab had and a clearing is due one delay later, with keep-alive off nothing is put by |
| EphemeralEffects.LeftStorageComesBack | browser/ephemeral_storage/ephemeral_storage_tab_helper.cc:125-144 | with keep-alive on, whatever happens between leaving and coming back within the delay, any tab of the profile gets what the tab had, as long as that tab stays open |
| EphemeralEffects.KeepAliveOffKeepsNothing | browser/ephemeral_storage/ephemeral_storage_tab_helper.cc:125-144 | with keep-alive off, every run has empty lists and no tasks |
| EphemeralEffects.OpeningTakesStorage | browser/ephemeral_storage/ephemeral_storage_tab_helper.cc:55-64 | a new tab has storage of its URL, or none without URL, and leaves all else alone |
| EphemeralEffects.ClosingLetsGo | browser/ephemeral_storage/ephemeral_storage_tab_helper.cc:66-71 | in every run, closing a tab empties it; each object loses the holders the tab accounted for and goes exactly when there are no others |
| EphemeralEffects.ClosedTabStaysClosed | browser/ephemeral_storage/ephemeral_storage_tab_helper.cc:134-143 | whatever comes later, tasks of its own included, a closed tab does not change |
| EphemeralEffects.ClockShowsElapsedTime | browser/ephemeral_storage/ephemeral_storage_tab_helper.cc:134-143 | the clock the delays are measured by shows the time that has passed |
| EphemeralTabHelper.StorageRegistry.GetOrCreate | chromium_src/content/browser/tld_ephemeral_lifetime.cc:65-75 | a registered key gives one more reference to its object, another key a new object with one reference |
| EphemeralTabHelper.StorageRegistry.Release | chromium_src/content/browser/tld_ephemeral_lifetime.cc:40-54 | one reference less; with the last one, object and key are gone |
| EphemeralTabHelper.FindKey | browser/ephemeral_storage/ephemeral_storage_tab_helper.cc:96-99 | the search loop finds the first match |
| EphemeralTabHelper.EphemeralStorageTabHelper.constructor | browser/ephemeral_storage/ephemeral_storage_tab_helper.cc:55-64 | a restored tab gets the storage of its URL, a tab without URL gets none |
| EphemeralTabHelper.EphemeralStorageTabHelper.ReadyToCommitNavigation | browser/ephemeral_storage/ephemeral_storage_tab_helper.cc:73-89 | storage is switched exactly for a main-frame navigation to a new document in another domain |
| EphemeralTabHelper.EphemeralStorageTabHelper.CreateEphemeralStorageAreasForDomainAndURL | browser/ephemeral_storage/ephemeral_storage_tab_helper.cc:113-180 | the whole switch, in the order of the source, on fields, registry and queue |
| EphemeralTabHelper.EphemeralStorageTabHelper.KeepStorageAlive | browser/ephemeral_storage/ephemeral_storage_tab_helper.cc:125-144 | pushes onto both lists and posts the clearing |
| EphemeralTabHelper.EphemeralStorageTabHelper.TakeLocalStorage | browser/ephemeral_storage/ephemeral_storage_tab_helper.cc:146-153 | the new namespace is taken before the old one is let go |
| EphemeralTabHelper.EphemeralStorageTabHelper.TakeSessionStorage | browser/ephemeral_storage/ephemeral_storage_tab_helper.cc:155-176 | the old namespace is let go before the new one is taken |
| EphemeralTabHelper.EphemeralStorageTabHelper.TakeLifetime | browser/ephemeral_storage/ephemeral_storage_tab_helper.cc:178-179 | the new lifetime is taken before the old one is let go |
| EphemeralTabHelper.EphemeralStorageTabHelper.ClearEphemeralLifetimeKeepalive | browser/ephemeral_storage/ephemeral_storage_tab_helper.cc:91-102 | the first entry with the key leaves each list, if there is one |
| EphemeralTabHelper.EphemeralStorageTabHelper.ClearLocalStorageKeepAlive | browser/ephemeral_storage/ephemeral_storage_tab_helper.cc:104-111 | the first entry with the id leaves the list of namespaces, if there is one |
| EphemeralTabHelper.EphemeralStorageTabHelper.WebContentsDestroyed | browser/ephemeral_storage/ephemeral_storage_tab_helper.cc:68-71 | both lists are dropped |
| EphemeralBrowser.Browser.RunTask | browser/ephemeral_storage/ephemeral_storage_tab_helper.cc:134-143 | the first due task clears on its tab, or does nothing when the tab is gone |
| EphemeralBrowser.Run | browser/ephemeral_storage/ephemeral_storage_tab_helper.cc:51-180 | any interleaving of events on any number of helper objects ends in the state the step functions give |
| Calendar.DayNumberOrder | components/brave_stats/browser/brave_stats_updater_util.cc:19-24 | the order of dates is the order of day numbers, and different dates have different numbers |
| Calendar.WeekYearHasThursday | components/brave_stats/browser/brave_stats_updater_util.cc:47-58 | the week-numbering year has the week's Thursday (section 3.2.2 of ISO 8601:2004) |
| Calendar.IsoWeekRange | components/brave_stats/browser/brave_stats_updater_util.cc:47-58 | week numbers are between 1 and 53, so 0 can stand for none |
| Calendar.YearAndNumberTellWeek | components/brave_stats/browser/brave_stats_updater_util.cc:47-58 | two days are in the same week exactly when week-numbering year and week number agree |
| Calendar.WeekNumbersTellWeeks | browser/brave_stats/brave_stats_updater_params.cc:62-64 | less than 358 days apart, week numbers differ exactly when the weeks do |
| Calendar.WeekNumbersRepeat | browser/brave_stats/brave_stats_updater_params.cc:62-64 | that bound is tight, in every common year that starts on a Tuesday |
| Calendar.Year2019 | browser/brave_stats/brave_stats_updater_params.cc:62-64 | 2019 is such a year |
| Calendar.MonthNumbersTellMonths | browser/brave_stats/brave_stats_updater_params.cc:66-68 | less than 335 days apart, month numbers differ exactly when the calendar months do |
| Calendar.MonthNumbersRepeat | browser/brave_stats/brave_stats_updater_params.cc:66-68 | that bound is tight |
| Calendar.DaysEarlier | browser/brave_stats/brave_stats_updater_params.cc:151-152 | going back by days over month and year ends lowers the day number by as much |
| YmdStrings.CompareEqualLength | browser/brave_stats/brave_stats_updater_params.cc:57-60 | decimal numbers with equally many digits compare as text as they do as numbers |
| YmdStrings.CompareShorter | browser/brave_stats/brave_stats_updater_params.cc:57-60 | with fewer digits, the equally long beginning of the longer number decides |
| YmdStrings.LaterComparesGreater | browser/brave_stats/brave_stats_updater_params.cc:57-60 | for any two dates, exactly when the text of the later one compares greater |
| YmdStrings.LaterComparesGreaterSameDigits | components/brave_stats/browser/brave_stats_updater_util.cc:19-24 | always while the years have equally many digits |
| YmdStrings.YearTenThousandComparesSmaller | browser/brave_stats/brave_stats_updater_params.cc:57-60 | not from 31 December 9999 to the next day |
| YmdStrings.FormatLooksLike | components/brave_stats/browser/brave_stats_updater_util.cc:19-24 | two dates written out |
| YmdStrings.CompareIgnoresCaseOnly | browser/brave_stats/brave_stats_updater.cc:278 | texts compare equal exactly when they differ in the case of ASCII letters at most |
| YmdStrings.SameTextSameDate | browser/brave_stats/brave_stats_updater.cc:276-279 | two dates have the same text, and compare equal, exactly when they are the same date |
| StatsPing.LastMonday | browser/brave_stats/brave_stats_updater_params.cc:144-155 | the adjustment by the day of the week, Sunday being 0, goes back exactly to the Monday |
| StatsTheorems.AckExtendsChain | browser/brave_stats/brave_stats_updater.cc:221-241 | an acknowledgement extends the chain: the parameters loaded at sending are still current when it comes |
| StatsTheorems.RunChain | browser/brave_stats/brave_stats_updater.cc:204-241 | in every run the preferences are those of the last acknowledged ping, and a ping in flight was made from the present ones |
| StatsTheorems.AcknowledgedPingsFormAChain | browser/brave_stats/brave_stats_updater_params.cc:57-134 | over cancellations and restarts, what an acknowledged ping says depends on the acknowledged pings before it only; only the first says it is first; the week of installation never changes |
| StatsTheorems.LaterPingDependsOnTheOneBefore | browser/brave_stats/brave_stats_updater_params.cc:57-72 | daily, weekly and monthly compare with the acknowledged ping just before |
| StatsTheorems.RunDates | browser/brave_stats/brave_stats_updater.cc:274-282 | with a clock that does not run back, a ping in flight is later than all acknowledged ones |
| StatsTheorems.AtMostOneAckPerDay | browser/brave_stats/brave_stats_updater.cc:274-282 | the dates of acknowledged pings strictly increase, over all restarts |
| StatsTheorems.EveryAckIsDaily | browser/brave_stats/brave_stats_updater_params.cc:57-60 | every acknowledged ping after the first says daily exactly when the years' texts are in order; from 1000 to 9999 always |
| PingCounts.WeeklyFlagMeansNewWeek | browser/brave_stats/brave_stats_updater_params.cc:62-64 | an acknowledged ping says weekly exactly when its week is new and does not have the number of the one before it |
| PingCounts.WeeklyCountsWeeks | browser/brave_stats/brave_stats_updater_params.cc:62-64 | the pings that say weekly are at most as many as the weeks with an acknowledged ping, and as many exactly when no new week has the number of the week of the ping before |
| PingCounts.WeeklyCountsWeeksWithoutLongGaps | browser/brave_stats/brave_stats_updater_params.cc:62-64 | in particular without gaps of 358 days |
| PingCounts.WeekCanBeMissed | browser/brave_stats/brave_stats_updater_params.cc:62-64 | a run over 6 January and 30 December 2019 in which the second ping says that its week is not new |
| PingCounts.MonthlyFlagMeansNewMonth | browser/brave_stats/brave_stats_updater_params.cc:66-68 | an acknowledged ping says monthly exactly when its month is new and does not have the number of the one before it |
| PingCounts.MonthlyCountsMonths | browser/brave_stats/brave_stats_updater_params.cc:66-68 | the pings that say monthly are at most as many as the months with an acknowledged ping, and as many exactly when no new month has the number of the month of the ping before |
| PingCounts.MonthlyCountsMonthsWithoutLongGaps | browser/brave_stats/brave_stats_updater_params.cc:66-68 | in particular without gaps of 335 days |
| PingCounts.MonthCanBeMissed | browser/brave_stats/brave_stats_updater_params.cc:66-68 | a run over 31 January 2021 and 1 January 2022 in which the second ping says that its month is not new |
| PingCounts.TwoPings | browser/brave_stats/brave_stats_updater.cc:144-282 | for any two days there is a run in which exactly their two pings are acknowledged |
| StatsTheorems.LastMondayIsTheMonday | browser/brave_stats/brave_stats_updater_params.cc:144-155 | the week of installation is the only Monday among the seven days that end today |
| StatsTheorems.SameMondaySameWeek | browser/brave_stats/brave_stats_updater_params.cc:144-155 | two days give the same text exactly when they are in the same Monday-started week |
| ThresholdTheorems.RunPrefs | browser/brave_stats/brave_stats_updater.cc:221-272 | the invariant of the threshold preferences and of a threshold ping in flight, over every run |
| ThresholdTheorems.ThresholdPrefsAreConsistent | browser/brave_stats/brave_stats_updater.cc:221-230 | a made check implies an empty query; a stored query implies a first ping and carries that ping's report |
| ThresholdTheorems.StoredQuerySaysFirst | browser/brave_stats/brave_stats_updater.cc:223-230 | in every run a stored query says that it is of the first ping, with the week that ping was sent in |
| ThresholdTheorems.ChecksAreNeverTakenBack | browser/brave_stats/brave_stats_updater.cc:298-305 | no step takes either check back; the query is stored with the first acknowledgement only, and changes after that only by being cleared |
| ThresholdTheorems.OneThresholdAck | browser/brave_stats/brave_stats_updater.cc:247-268 | at most one threshold ping is ever acknowledged, with the report of the first standard ping |
| ThresholdTheorems.QueryStoredIffFirstAckComesFirst | browser/brave_stats/brave_stats_updater.cc:166-230 | from a fresh installation, the query is ever stored exactly when a standard ping is acknowledged before any call reaches the threshold unhindered |
| ThresholdTheorems.EarlyCallLosesThresholdPing | browser/brave_stats/brave_stats_updater.cc:399-409 | otherwise the threshold ping is disabled for good with nothing stored or acknowledged; and without such a call it is given up only when acknowledged |
| ThresholdTheorems.ThresholdPingCanBeLost | browser/brave_stats/brave_stats_updater.cc:174-186 | it happens when the user's third page comes while the first ping is in flight: the check is made and nothing acknowledged |
| PingEffects.LastPreconditionStartsTimer | browser/brave_stats/brave_stats_updater.cc:307-366 | after a start, the startup timer runs exactly from the last open precondition on |
| PingEffects.RestartKeepsPreferences | browser/brave_stats/brave_stats_updater.cc:114-133 | a restart keeps the preferences and nothing else |
| PingEffects.StopEndsTimers | browser/brave_stats/brave_stats_updater.cc:161-164 | after a stop no timer fires; a request in flight goes on |
| PingEffects.TimerPingsOncePerDay | browser/brave_stats/brave_stats_updater.cc:274-282 | in every run, either timer sends a ping exactly unless the last acknowledged one is of the same day; the ping says what the acknowledged ones determine and replaces the request in flight |
| PingEffects.AnswerTellsWhenToStop | browser/brave_stats/brave_stats_updater.cc:166-186 | the answer is true exactly when the check is made or the score reaches three |
| PingEffects.ThresholdPingIsSent | browser/brave_stats/brave_stats_updater.cc:181-184 | in every run, reaching a score of three after the first acknowledged ping, with nothing holding it back, sends the threshold ping with what that first ping said |
| PingEffects.EarlyScoreCancelsPing | browser/brave_stats/brave_stats_updater.cc:407-428 | reaching it before gives the threshold ping up and cancels a standard ping in flight |
| PingEffects.ScoreOnlyCounts | browser/brave_stats/brave_stats_updater.cc:174-185 | otherwise only the score changes |
| PingEffects.AckSendsThresholdPing | browser/brave_stats/brave_stats_updater.cc:240-241 | an acknowledged ping sends the threshold ping when the score was reached before |
| PingEffects.FailureChangesNothing | browser/brave_stats/brave_stats_updater.cc:212-219 | a failed request leaves everything but itself as it was |
| PingEffects.ThresholdAckEnds | browser/brave_stats/brave_stats_updater.cc:267-268 | an acknowledged threshold ping is counted, and makes the check and clears the query |
| PingEffects.ThresholdPingGetsThrough | browser/brave_stats/brave_stats_updater.cc:166-272 | there is a run with an acknowledged threshold ping |
| StatsUpdater.BraveStatsUpdaterParams.constructor | browser/brave_stats/brave_stats_updater_params.cc:39-53 | loads the preferences and falls back to this week's Monday when no week is stored |
| StatsUpdater.BraveStatsUpdaterParams.SavePrefs | browser/brave_stats/brave_stats_updater_params.cc:128-134 | writes five preferences and leaves the threshold ones alone |
| StatsUpdater.BraveStatsUpdaterParams.UpdateUrl | browser/brave_stats/brave_stats_updater.cc:70-79 | whenever the preferences that were loaded remember the acknowledged pings, the five parameters the URL is modelled with say what the acknowledged pings and the date determine |
| StatsUpdater.RequestInFlightSays | browser/brave_stats/brave_stats_updater.cc:374-379 | in every run of the objects, the URL of a standard ping in flight says what the pings acknowledged so far and the date determine |
| StatsUpdater.BraveStatsUpdater.Start | browser/brave_stats/brave_stats_updater.cc:144-159 | timers are made and the ping queued |
| StatsUpdater.BraveStatsUpdater.QueueServerPing | browser/brave_stats/brave_stats_updater.cc:307-338 | the startup timer waits for the preconditions, or starts at once when there are none |
| StatsUpdater.BraveStatsUpdater.OnPreconditionMet | browser/brave_stats/brave_stats_updater.cc:346-358 | the last precondition starts the timer |
| StatsUpdater.BraveStatsUpdater.OnServerPingTimerFired | browser/brave_stats/brave_stats_updater.cc:274-282 | a ping is sent exactly when the last acknowledged one is not of today |
| StatsUpdater.BraveStatsUpdater.SendServerPing | browser/brave_stats/brave_stats_updater.cc:368-397 | the new request replaces the one in flight |
| StatsUpdater.BraveStatsUpdater.SendUserTriggeredPing | browser/brave_stats/brave_stats_updater.cc:399-429 | an empty query disables the threshold ping, and the request replaces the one in flight all the same |
| StatsUpdater.BraveStatsUpdater.MaybeDoThresholdPing | browser/brave_stats/brave_stats_updater.cc:166-186 | new state and answer in all four branches |
| StatsUpdater.BraveStatsUpdater.OnSimpleLoaderComplete | browser/brave_stats/brave_stats_updater.cc:204-245 | the query is stored before the preferences are saved, then the threshold is checked again; a failed ping changes nothing |
| StatsUpdater.BraveStatsUpdater.OnThresholdLoaderComplete | browser/brave_stats/brave_stats_updater.cc:247-272 | success disables the threshold ping, failure changes nothing |
| StatsUpdater.Run | browser/brave_stats/brave_stats_updater.cc:114-429 | any run of updater objects over any number of restarts ends in the state the step functions give |
| Bisect.Halves | script/build-bisect.py:374 | either answer leaves at most half of the releases to be tried |
| Bisect.Narrows | script/build-bisect.py:386-400 | a probe keeps what is known of both pairs of brackets, whichever the answer, and halves the releases left |
| Bisect.OneLeft | script/build-bisect.py:388-391 | an early return happens only after a no, and either of its two answers is a first broken release |
| Bisect.NoneLeft | script/build-bisect.py:402 | when the brackets meet, the release tried last is a first broken one after a no, the one before the last after yes only |
| Bisect.Search | script/build-bisect.py:370-402 | for any answers: a no anywhere gives a broken release with a working predecessor, all yes gives the release before the last; the number of probes is logarithmic; attempts are the probes, one more without early return |
| Bisect.FindFirstBrokenVersion | script/build-bisect.py:323-402 | the same for the whole function, with its four failures, each if and only if, and end points that are tried only when not given; when releases stay broken, the report is the first broken one exactly when that is not the last, and works otherwise |
| Bisect.YesPathEnds | script/build-bisect.py:373-402 | the releases tried while answers are yes end with the one before the last |
| Bisect.MonotoneMeetsBroken | script/build-bisect.py:373-402 | when releases stay broken, the search meets a no exactly when the release before the last is broken |
| Bisect.ReportsWorkingRelease | script/build-bisect.py:402 | of two working releases and a broken one, the function reports the second |
| FeatureCsv.ParsedNamesAreWellFormed | app/brave_command_line_helper.cc:30-40 | reading yields non-empty names without commas or outer whitespace, whatever the text |
| FeatureCsv.PiecesOfJoin | app/brave_command_line_helper.cc:85-95 | splitting what was joined gives the names back, in order |
| FeatureCsv.JoinOfPieces | app/brave_command_line_helper.cc:36-37 | joining the pieces of any text gives the text back |
| FeatureCsv.BlanksAreTakenOff | app/brave_command_line_helper.cc:36-37 | white space around a well-formed name is taken off, and nothing else |
| FeatureCsv.BlanksAreNoName | app/brave_command_line_helper.cc:36-37 | a piece of white space only is no name |
| FeatureCsv.TwoNamesAreRead | app/brave_command_line_helper.cc:36-37 | two names with a comma and white space between them read as the two |
| FeatureCsv.CsvRoundTrip | app/brave_command_line_helper.cc:30-40 | writing names and reading them gives the same set, in any order of writing, exactly when all are well-formed |
| CommandLineHelper.AppendedFeaturesReadBack | app/brave_command_line_helper.cc:79-95 | a new helper on the command line that is left finds the same features, unwritten empty sets included, exactly when all names are well-formed |
| CommandLineHelper.FirstMentionWins | app/brave_command_line_helper.cc:64-78 | over any sequence of calls each feature ends up as its first mention says, so nothing the user gave is dropped and the sets stay disjoint |
| CommandLineHelper.RepeatedCallChangesNothing | app/brave_command_line_helper.cc:64-78 | repeating a call changes neither set |
| CommandLineHelper.TextsDecide | app/brave_command_line_helper.cc:42-78 | what the disabling switch names is off, else what the enabling switch names is on, else the first call that names a feature decides |
| CommandLineHelper.HelperAfterCalls | app/brave_command_line_helper.cc:15-83 | the same of the object, from the values of --enable-features and --disable-features and any calls |
| CommandLineHelper.BraveCommandLineHelper.constructor | app/brave_command_line_helper.cc:15-18 | a new helper has what the command line reads as |
| CommandLineHelper.BraveCommandLineHelper.Parse | app/brave_command_line_helper.cc:42-57 | the loop removes exactly the features that are also disabled |
| CommandLineHelper.BraveCommandLineHelper.ParseCsvInto | app/brave_command_line_helper.cc:30-40 | adds exactly the names the value spells |
| CommandLineHelper.BraveCommandLineHelper.AppendFeatures | app/brave_command_line_helper.cc:64-83 | merges, writes the non-empty sets and keeps the command line readable as the sets |
| CommandLineHelper.BraveCommandLineHelper.AddDisabled | app/brave_command_line_helper.cc:70-73 | the disabled set grows by those not enabled |
| CommandLineHelper.BraveCommandLineHelper.AddEnabled | app/brave_command_line_helper.cc:75-78 | the enabled set grows by those not disabled by then |
| CommandLineHelper.BraveCommandLineHelper.AppendCsv | app/brave_command_line_helper.cc:85-95 | the switch lists each name once, in some order, and other switches stay |
| ShieldsCounters.RunRemembers | browser/brave_shields/brave_shields_web_contents_observer.cc:154-162 | in every run a tab remembers exactly the URLs reported for its present page |
| ShieldsCounters.CountedIffFirst | browser/brave_shields/brave_shields_web_contents_observer.cc:176-198 | a report is counted exactly when it is the first of its URL for its page of its tab |
| ShieldsCounters.OneFirstReport | browser/brave_shields/brave_shields_web_contents_observer.cc:176-198 | each reported triple of tab, page and URL has exactly one first report |
| ShieldsCounters.CountersAreConserved | browser/brave_shields/brave_shields_web_contents_observer.cc:171-198 | over all tabs and pages each counter grows, in 64 bits, by the number of distinct triples first reported with its type |
| ShieldsCounters.StoredIsModulo | browser/brave_shields/brave_shields_web_contents_observer.cc:186-195 | what a 64-bit preference keeps of a number |
| ShieldsCounters.BraveShieldsWebContentsObserver.DispatchBlockedEvent | browser/brave_shields/brave_shields_web_contents_observer.cc:165-198 | URL set and counters after a report |
| ShieldsCounters.BraveShieldsWebContentsObserver.ReadyToCommitNavigation | browser/brave_shields/brave_shields_web_contents_observer.cc:255-271 | which navigations make the tab forget URLs, and which also scripts |
| ShieldsCounters.Run | browser/brave_shields/brave_shields_web_contents_observer.cc:154-271 | any run of observer objects on one profile ends with the counters the step functions give |
| ShieldsClearing.ClearingIsAdditive | browser/browsing_data/brave_browsing_data_remover_delegate.cc:87-115 | clearing two adjoining ranges equals clearing both at once, exactly when the whole range is not all-time or holds nothing |
| ShieldsClearing.ClearedIsExact | browser/browsing_data/brave_browsing_data_remover_delegate.cc:87-115 | a rule goes exactly when it is of one of the eight types and was changed from the beginning to before the end, and the range is not all-time; the others stay as they are |
| ShieldsClearing.ClearShieldsSettings | browser/browsing_data/brave_browsing_data_remover_delegate.cc:87-115 | removes exactly the settings of the eight shields types last changed in the half-open range; nothing for all time |
| ShieldsClearing.ClearOneType | browser/browsing_data/brave_browsing_data_remover_delegate.cc:102-113 | the inner loop does that for one type, whichever rules other providers add to the listing |
| TestIterations.ComputeScore | script/json2xunit.py:27-34 | the accumulated score, with its loop over the markers |
| TestIterations.ScoreAddsUp | script/json2xunit.py:27-34 | success, length, announcement and each of the three texts count for themselves |
| TestIterations.StartsThisTestIff | script/json2xunit.py:30-31 | an output is announced exactly when it begins with the announcement, any suite prefix, the name and the end of the line |
| TestIterations.PickIteration | script/json2xunit.py:24-35 | computing the scores and sorting gives the iteration the function picks |
| TestIterations.PickIsFirstBest | script/json2xunit.py:35 | the stable descending sort picks the first iteration with the highest score |
| TestIterations.SuccessPickedIff | script/json2xunit.py:24-35 | a success is picked exactly when a successful iteration is ahead of every failed one |
| TestIterations.SuccessPickedBelowBound | script/json2xunit.py:24-35 | with failed outputs below 985000 characters a success is picked whenever there is one |
| TestIterations.BoundIsTight | script/json2xunit.py:24-35 | at 985000 characters a failed output that names the test and has all markers is picked over an empty success |
| TestIterations.BoundIsReached | script/json2xunit.py:24-35 | there is such an output for every test name that leaves room for it |
| TestIterations.LongFailureIsPicked | script/json2xunit.py:24-35 | beyond 1015000 characters a failure beats an empty success whatever the texts are |
| TestIterations.LastDelimiterIsLast | script/json2xunit.py:43-44 | names are split at the last delimiter |
| TestIterations.ReadableIff | script/json2xunit.py:43-45 | a test can be read exactly when it has iterations and one of the three delimiters in its name |
| TestIterations.NameIsTakenApart | script/json2xunit.py:43-44 | the name is suite, delimiter and case, at the last '#', else the last '/', else the last dot |
| TestIterations.RecordCounts | script/json2xunit.py:47-53 | one more test keeps every suite's counts right |
| TestIterations.CountTest | script/json2xunit.py:45-53 | the body of the loop does that to the dictionary |
| TestIterations.Transform | script/json2xunit.py:37-56 | exactly the suites that occur are reported, each with its tests and reported failures; it fails exactly when a name has no delimiter or a test no iteration |
| TestIterations.Totals | script/json2xunit.py:62-63 | the sums over the suites are the number of tests and of reported failures |
| TestIterations.FailuresAreHopeless | script/json2xunit.py:11-14 | under the bound, the reported failures are exactly the tests without a successful iteration |

## Left out

- Cookie deletion and on-destroy callbacks of a lifetime, and cloning session storage from an opener: foreign calls.
- The hook that changes the keep-alive delay for tests: it breaks the posting order by design.
- Network requests, headers, traffic annotations, MD5: a request is sent, succeeds, fails or is replaced.
- The other parameters of a ping (platform, channel, version, date of installation, referral code, ads, architecture): they do not come back into the state.
- UpdateUrl: carries five of the parameters only, because the others are left out above.
- LastMonday: counts calendar days from the year 1 on, because the offset of local time is taken as fixed; the source subtracts multiples of 24 hours.
- MaybeDoThresholdPing: the score is unbounded, because 32-bit overflow of the score is not modelled.
- Registration of preferences, profile observers, the factories, the DRM helper and the rewards and ads tab helpers: they would add only one-branch claims.
- FindFirstBrokenVersion: takes the positions of the good and bad version as given, because finding the nearest tag, the prompts, downloads and profiles are input and output; a range of fewer than two steps, where the source reads an unset variable, is its own outcome.
- ParseCsvInto: `SplitString` is modelled by its contract with ASCII whitespace.
- Switches other than the two feature switches, and `AppendSwitch`.
- Messages to renderers and extensions, the map from frame nodes to tab URLs and the performance predictor: foreign calls.
- ClearShieldsSettings: times are whole microseconds; all other browsing data is not part of this model.
- ComputeScore: `\w` is taken as ASCII letters, digits and the underscore.
- Transform: the XML text, elapsed times and writing the report are left out; only the counts are kept.
