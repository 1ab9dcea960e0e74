# hyprstate: the decision machines, verified

hyprstate is a session daemon for laptops under Hyprland: it decides when the machine suspends, which
outputs are lit, which GPU the compositor opens, and which power profile applies. This project models
those decisions in Dafny 4.11 and proves what they keep over every run.

- `Fsm`, `Suspend`: the lid and suspend machine and one dispatch of the event loop, as functions on values.
  `Dispatcher` is the same code as it is written, a `Context` object whose handlers update its fields;
  each handler is proved to compute its function.
- `SuspendRuns` puts the daemon among its event sources: a queue, a clock, timers that may have sent
  before they are aborted, other programs writing or removing the request file, and any answer from
  the locker and from logind. `Dispatcher.Context.Run` is proved to take the object through the states of
  such a run and to leave the run's trace (`Traces`), so that what holds in every run holds of the object.
- `Transitions` and `Outcomes` say what every single dispatch comes to, in terms of the context alone: inputs,
  request, state, timers and effects.
- `SuspendSafety`, `GraceWindow`, `RequestFile`, `Screens` and `BatteryLow` hold the theorems over those
  runs, `Witnesses` the reachable states in which an expectation fails.
- `Powerd` is powerd's coalescing `ApplyProfile` under any interleaving of any number of callers.
- `Gpu`, `GpuSelection`, `GpuListing`: the GPU list, its exact conditions and contents, and its independence of
  enumeration order.
- `Power`, `PowerPolicy`, `PowerOutcomes`, `PowerRuns`, `SelfWrites`: the power policy, one check and over runs.
- `Text`, `Directives`, `ProfileMeaning`, `Capture`, `CaptureRoundTrip`, `CaptureBody`, `LuaLiteral`, `Kbd`: the
  profile texts and level arithmetic.

Five expectations turn out not to hold of the code, and the code is kept as it is:

- A grace window has no lower bound, because aborting a timer does not recall the expiry it already sent.
  `GraceWindow.GraceIsCutShortExactlyWhen` gives the exact condition on the queue as the countdown opened,
  and `Witnesses.NothingGuaranteesTheGrace` a reachable case for every window length.
- The repository's power design document promises at its lines 41-43 that of coalesced calls only the first
  and the latest apply. The first does: a call that finds the lock free is applied at once. A call that had
  to wait is applied exactly when it asks for what the latest asks for when its turn comes
  (`Powerd.AppliesExactlyWhen`), so one in between can be as well (`Powerd.TheMiddleCallApplies`, and
  `Powerd.OnlyTheLatestFollowsExactlyWhen` for when it is not).
- The comments at src/daemon/dispatcher.rs:112-113 and :143-145 have the daemon leave a request that is not
  its own alone. It overwrites an idle request it has not heard of with a battery-low one
  (`RequestFile.IdleRequestIsLostExactlyWhen`; `Witnesses.AnIdleRequestIsLost` reaches it), and later
  withdraws that as its own (`RequestFile.OverwrittenRequestIsWithdrawn`).
- The comment at src/daemon/effectors.rs:716-717 has any larger change count as the user's, to be left alone.
  Unplugging straight into a low battery yields to the user's level and then caps it
  (`PowerOutcomes.UserLevelStandsExactlyWhen`), and a wake makes the next plug-in overwrite it
  (`PowerOutcomes.WakeForgetsTheUser`); otherwise it stands (`PowerOutcomes.PlugInNeverOverwritesTheUser`).
- The Lua quoter writes NUL as `\0`, which takes digits that follow it into the escape
  (`LuaLiteral.QuoteRoundTrip` gives the exact condition). File names never hold a NUL.

## Model

| member | source | states |
|---|---|---|
| `SuspendSafety.SuspendIsAlwaysJustified` | src/daemon/dispatcher.rs:175-200 | In every run, each logind suspend call is the last effect of dispatching an expiry in Countdown, straight after a live reading of the locker, with a standing request whose file still exists or the lid asking, and no claim governing |
| `SuspendSafety.ExpirySuspends` | src/daemon/dispatcher.rs:254-281 | For every daemon value: an expiry suspends if and only if it is dispatched in Countdown, the world still wants it and the lock is proven; Suspending is entered exactly when logind also accepts |
| `SuspendSafety.OthersNeverSuspend` | crates/hyprstate-fsm/src/fsm.rs:121-147 | No event but an expiry calls suspend, and only a resume leaves Suspending |
| `SuspendSafety.TailShape` | src/daemon/dispatcher.rs:177-200 | The suspend attempt calls logind exactly when the locker proof succeeds, succeeds exactly when logind also accepts, and touches nothing but the trace |
| `SuspendSafety.TickShape` | src/daemon/dispatcher.rs:381-558 | A reconcile tick never suspends, never enters or leaves Suspending, keeps the repaired inputs, and moves the cursor baseline exactly when it is handled outside Suspending |
| `SuspendSafety.SuspendingIffAsleep` | src/daemon/dispatcher.rs:262-280 | In every reachable state, Suspending holds exactly when the run has an accepted suspend with no resume dispatched after it |
| `SuspendSafety.ResumeForgetsTheRequest` | src/daemon/dispatcher.rs:914-926 | Waking goes where the world without its old request points; it counts down again exactly when the lid itself asks |
| `SuspendSafety.DrivenDispatchConverges` | src/daemon/dispatcher.rs:254-312 | Any dispatch that drives the machine from outside Suspending ends in the state the final inputs name, or in Suspending after an accepted expiry |
| `SuspendSafety.OutOfStepExactlyWhen` | src/daemon/dispatcher.rs:454-482 | A machine in step ends a dispatch out of step if and only if the dispatch was a resume outside Suspending, an expiry outside Countdown, or a tick that repairs the charger alone, and the inputs it leaves name another state |
| `Witnesses.ResumeFallsBehind` | crates/hyprstate-fsm/src/fsm.rs:137-139 | The first of the three is reachable |
| `Witnesses.ExpiryFallsBehind` | crates/hyprstate-fsm/src/fsm.rs:122-125 | The second is reachable |
| `Witnesses.TickFallsBehind` | src/daemon/dispatcher.rs:454-482 | The third is reachable |
| `SuspendSafety.BootShape` | src/daemon/dispatcher.rs:560-576 | Startup calls no suspend and starts in step |
| `Traces.DispatchSince` | src/daemon/dispatcher.rs:678-961 | A dispatch does the same whatever was done before it, and only adds to the trace |
| `Traces.TraceIsProven` | src/daemon/dispatcher.rs:177-200 | In the whole trace of every run, each suspend call stands directly behind a live reading of the locker |
| `SuspendSafety.EqualInputsEqualState` | src/daemon/ctx.rs:218-234 | Two runs of any length and order that end on driven dispatches with equal inputs are in the same state |
| `Transitions.SeatAfter` | src/daemon/dispatcher.rs:759-797 | For every event: exactly what lid, monitor count and lock are afterwards, in the words of the event or of the tick, all else as it was |
| `Transitions.ClaimsAfter` | src/daemon/dispatcher.rs:760-797 | For every event: exactly what both claims are afterwards; the Wayland claim is sampled on a lid close and on a request |
| `Transitions.PowerAfter` | src/daemon/dispatcher.rs:798-889 | For every event: exactly what both charger axes and the low latch are afterwards |
| `Transitions.PolicyAfter` | src/daemon/effectors.rs:442-464 | For every event: which re-reads the panel policy |
| `Transitions.RequestAfter` | src/daemon/dispatcher.rs:122-173 | For every event: exactly what request flag and request file are afterwards |
| `Transitions.InputsAreWhatWasLastSaid` | src/daemon/dispatcher.rs:759-961 | In every reachable state lid, monitor count, lock and both claims are what the last dispatched event naming each of them said |
| `Outcomes.StateAfter` | src/daemon/dispatcher.rs:254-312 | For every event: the exact state a dispatch ends in, from the inputs it leaves, spelled out in context fields |
| `Outcomes.TimersAfter` | src/daemon/effectors.rs:309-356 | For every event: the exact grace timer and claim watch afterwards; a window that opens is 30 s with a request standing, whatever the lid grace |
| `Outcomes.TraceAfter` | src/daemon/dispatcher.rs:43-200 | For every event: the exact sequence of effects: request file, lock and suspend attempt, panel by policy and state, media, panel correction, light |
| `Outcomes.NobodyAsksTheLidDecides` | crates/hyprstate-fsm/src/fsm.rs:108-114 | Without a request a dispatch that reaches the machine ends in LidOpen with the lid open and in Docked beside an external, whatever claim, lock, battery or charger hold says |
| `Outcomes.ShownMediaPlayOn` | src/daemon/dispatcher.rs:59-69 | No dispatch that ends in LidOpen or Docked pauses media |
| `Outcomes.LockingEndsTheClaim` | crates/hyprstate-fsm/src/fsm.rs:89-91 | From Deferred with a shut lid and no charger hold, locking ends in Countdown with a full window |
| `Outcomes.BootAfter` | src/daemon/dispatcher.rs:560-576 | Everything startup leaves: inputs, request, state, timers and effects |
| `SuspendRuns.CountdownIsNeverParked` | src/daemon/effectors.rs:297-337 | In every reachable state a grace timer is held exactly in Countdown, in Countdown it is still asleep or an expiry is queued, and a claim watch is held only in Deferred |
| `SuspendRuns.DispatchKeepsHandles` | src/daemon/dispatcher.rs:43-87 | Every dispatch keeps the timer and the claim watch matched to the state; an expiry that stays in Countdown has armed a new timer |
| `GraceWindow.NothingPostponesTheDeadline` | src/daemon/effectors.rs:323-337 | However many events are dispatched while Countdown lasts, the deadline stands until the timer fires, unless a suspend attempt was rejected |
| `GraceWindow.CountdownKeepsLiveTimer` | src/daemon/dispatcher.rs:74-81 | A dispatch that stays in Countdown keeps a live timer, except that a rejected attempt re-arms one full window: 30 s with a request standing, else the lid grace |
| `GraceWindow.GraceIsHonoured` | src/daemon/effectors.rs:323-337 | A countdown that opened with no expiry queued dispatches no suspend before its deadline |
| `GraceWindow.GraceIsCutShortExactlyWhen` | src/daemon/effectors.rs:297-337 | Before its deadline, with no attempt rejected, a countdown calls suspend if and only if the event dispatched is an expiry that stood in the queue when the countdown opened, as many places behind its head as events were dispatched since, with the suspend still wanted and the lock proven |
| `GraceWindow.EarlyExpiryWasQueued` | src/daemon/effectors.rs:297-337 | With rejected attempts too: an expiry dispatched before the first deadline was queued at the opening, or follows the rejection of one that was |
| `GraceWindow.StepSuspendsExactlyWhen` | src/daemon/dispatcher.rs:254-281 | Any step of a countdown calls suspend exactly for an expiry still wanted with the lock proven |
| `Witnesses.NothingGuaranteesTheGrace` | src/daemon/effectors.rs:297-313 | Reachable for every window length: a countdown opens a full window before its deadline and the very next step suspends |
| `RequestFile.TickRestoresAgreement` | src/daemon/dispatcher.rs:403-416 | Every tick ends with the request flag equal to the existence of the file, whatever it found |
| `RequestFile.DispatchKeepsAgreement` | src/daemon/dispatcher.rs:122-173 | From agreement, a dispatch loses it exactly by a stale notification or a wake that cannot remove the file; exactly a wake takes away somebody else's request |
| `RequestFile.AgreementHoldsUntilDisturbed` | src/daemon/dispatcher.rs:403-416 | From startup and from every tick, flag and file agree for as long as nothing else touches the file and no stale notice lands |
| `RequestFile.BootAgreesExactlyWhen` | src/daemon/mod.rs:154-168 | Startup ends in agreement exactly when it removed the leftover file or asked for a suspend itself |
| `RequestFile.IdleRequestIsLostExactlyWhen` | src/daemon/dispatcher.rs:122-173 | For every event and whatever the context knows: an idle request is lost if and only if a wake removes it, or the battery-low routine asks over one the context has not heard of |
| `RequestFile.OverwrittenRequestIsWithdrawn` | src/daemon/effectors.rs:624-644 | An overwritten request is removed by the next plug-in as the daemon's own |
| `Witnesses.AnIdleRequestIsLost` | src/daemon/dispatcher.rs:844-861 | Reachable for every threshold: a low reading dispatched before the notification overwrites an idle request |
| `RequestFile.CheckSettles` | src/daemon/dispatcher.rs:122-173 | After a battery-low check whose file operation succeeded a second check holds, the daemon's own request stands only low and off the charger, and some request stands whenever low and off both AC axes |
| `RequestFile.PlugInWithdraws` | src/daemon/dispatcher.rs:798-816 | A plug-in from agreement leaves no battery-low request in context or file; afterwards Countdown is exactly a lid reason or an idle request with no claim governing |
| `Screens.LightsOnlyWhatNobodyOwns` | src/daemon/dispatcher.rs:517-548 | In every run, outputs are lit only by a pass that saw one dark in LidOpen or Docked; on a locked session the pass before it was dark too and saw the cursor elsewhere, so an earlier dark episode never counts |
| `Screens.TickLights` | crates/hyprstate-fsm/src/fsm.rs:197-205 | A tick lights exactly when an output is dark, the state shows something, and the session is unlocked or the cursor moved; it hides the panel only beside an external |
| `Screens.BaselineIsTheLastPass` | src/daemon/dispatcher.rs:517-530 | The cursor baseline is always the sample of the last pass handled outside Suspending |
| `Screens.OthersLightNothing` | src/daemon/effectors.rs:232-255 | No other event lights an output or moves the baseline |
| `Screens.TheLastPanelStaysOn` | src/daemon/effectors.rs:232-247 | In every run, startup included, the panel is asked to go off only while an external is counted |
| `BatteryLow.LatchedExactlyWhen` | crates/hyprstate-fsm/src/power.rs:141-149 | After any readings, the latch is set exactly when some reading at or below the threshold has not been followed by one at threshold + 3, or it was set and none reached that |
| `Fsm.WorldState` | crates/hyprstate-fsm/src/fsm.rs:93-115 | Exactly when each state is named: LidOpen and Docked by lid and externals alone without a request, Deferred under a governing claim or the charger hold, Countdown when a request stands or the lid asks and no claim governs; never Suspending |
| `Fsm.DesiredState` | crates/hyprstate-fsm/src/fsm.rs:121-147 | Suspending is proposed exactly by an expiry in Countdown that still points there; it is left by a resume only; every other proposal is the world state |
| `Dispatcher.Context.constructor` | src/daemon/dispatcher.rs:560-576 | The started object is the initial state of every run |
| `Dispatcher.Context.Dispatch` | src/daemon/dispatcher.rs:678-961 | One event through the routing, equal to the value form the run theorems are about |
| `Dispatcher.Context.Run` | src/daemon/dispatcher.rs:611-633 | The event loop among all other activity: the object goes through the states of the run, its trace is the run's, every suspend call in it stands directly behind a live locker reading, a grace timer is held exactly in Countdown, and Suspending means an accepted suspend with no resume since |
| `Powerd.LastRequestWins` | src/powerd/mod.rs:50-79 | For any number of callers and any interleaving, active and persisted profiles never differ, and the hardware shows them unless the firmware reset it since it was last written; once no call is in flight they are the one asked for last |
| `Powerd.SupersededOnlyByALaterCall` | src/powerd/mod.rs:62-70 | "Superseded" is answered only when a later call asked for the profile named, different from the caller's own |
| `Powerd.AppliesExactlyWhen` | src/powerd/mod.rs:60-74 | In every reachable state a step applies a call if and only if the call arrives at a free lock, or its turn comes and it asks for what the latest caller asks for |
| `Powerd.FirstComeFirstServed` | src/powerd/mod.rs:61-61 | A free lock means that nobody is in flight; behind an unanswered call everyone waits |
| `Powerd.StormIsDecidedByTheLatest` | src/powerd/mod.rs:62-74 | Once no new call arrives, each call still to be decided ends applied if and only if it asks for what the latest asks for, and is otherwise told the latest, whatever the interleaving |
| `Powerd.OnlyTheLatestFollowsExactlyWhen` | src/powerd/mod.rs:62-74 | Behind the call in hand only the latest is applied, if and only if no call in between wants what the latest wants |
| `Powerd.Power1.Arrive` | src/powerd/mod.rs:55-74 | A call up to its first suspension is one step: publish, and with the lock free check, hardware, active and disk |
| `Powerd.Power1.Resume` | src/powerd/mod.rs:62-74 | A call that was handed the lock after waiting checks and applies in one step, and its answer is the one recorded |
| `Powerd.Power1.Reapply` | src/powerd/mod.rs:159-171 | The resume re-apply puts the active profile back on the hardware |
| `Powerd.TheMiddleCallApplies` | src/powerd/mod.rs:60-74 | Reachable for all profiles: of three callers, the last two arriving while the first is applied and wanting the same, all three are applied |
| `Powerd.StormSettles` | src/powerd/mod.rs:50-79 | While a call is in flight some step of powerd is possible, and each brings the calls nearer their answers |
| `Powerd.ResumeMendsTheReset` | src/powerd/mod.rs:159-171 | After a firmware reset the resume re-apply puts the active profile back on the hardware, and touches nothing else |
| `Powerd.NothingElseWrites` | src/powerd/mod.rs:60-74 | A superseded or waiting call writes nothing but the slot |
| `GpuSelection.SelectionIgnoresOrder` | crates/hyprstate-fsm/src/gpu.rs:154-240 | Any two enumerations of the same cards, paths distinct, give the same list and the same reason in every mode |
| `GpuSelection.IntegratedIgnoresOrder` | crates/hyprstate-fsm/src/gpu.rs:108-123 | They name the same integrated card, or both none |
| `GpuSelection.IntegratedIsIntegrated` | crates/hyprstate-fsm/src/gpu.rs:108-123 | A card found integrated has the least VRAM and is the only boot_vga card, or alone has the least when none claims boot_vga |
| `GpuSelection.IntegratedIsFound` | crates/hyprstate-fsm/src/gpu.rs:108-123 | The converse: such a card is found |
| `GpuSelection.ListedExactlyWhen` | crates/hyprstate-fsm/src/gpu.rs:154-240 | There is a list if and only if the mode is on, two cards or more, no non-PCI display, an unambiguous integrated card, and some output that could light up |
| `GpuSelection.ListedHas` | crates/hyprstate-fsm/src/gpu.rs:214-227 | A list has no repeats and holds exactly the integrated card, everything connected, the best discrete in dgpu, and all cards in auto |
| `GpuListing.ListIsExactly` | crates/hyprstate-fsm/src/gpu.rs:180-239 | Every list down to its text: in igpu the integrated card leads, in dgpu the discrete card no other beats on externals, VRAM and path, in auto that one exactly when it has a connected output; then the integrated card, then the others called for, best first; and the reason in its very word for each mode and source |
| `GpuListing.RefusalsInWords` | crates/hyprstate-fsm/src/gpu.rs:159-177 | Without a list, the very word of the first reason that applies |
| `GpuListing.PathsAreInDictionaryOrder` | crates/hyprstate-fsm/src/gpu.rs:181-193 | The path key is dictionary order |
| `GpuSelection.AutoReasonNamesThePrimary` | crates/hyprstate-fsm/src/gpu.rs:196-207 | In auto the reason says whether a connected discrete or the integrated card leads |
| `GpuSelection.ModesListTogether` | crates/hyprstate-fsm/src/gpu.rs:154-240 | igpu, dgpu and auto list together or not at all |
| `GpuSelection.ModesGrow` | crates/hyprstate-fsm/src/gpu.rs:154-240 | What igpu lists dgpu lists, what dgpu lists auto lists, and auto lists every card |
| `GpuSelection.SortRanks` | crates/hyprstate-fsm/src/gpu.rs:180-193 | The sort ranks strictly and keeps every index |
| `Gpu.ListDevices` | crates/hyprstate-fsm/src/gpu.rs:214-227 | The device vector grown in one loop equals the specified list |
| `Gpu.GpuDesired` | crates/hyprstate-fsm/src/gpu.rs:154-240 | The routine as it runs equals the selection the theorems are about, error branches in the source's order |
| `PowerRuns.OverrideLifetime` | src/daemon/power_policy.rs:15-49 | From its stamp, through any checks and any echoes between, an override is alive, in context and file, exactly while every base had the stamp's AC side and was low only if the stamp was |
| `PowerRuns.EveryCheckApplies` | src/daemon/power_policy.rs:51-54 | Through any outages and returns of powerd: while it counts as reachable, and it does as long as it answers, every check of every run leaves the live override applied, else the policy's choice |
| `PowerRuns.ReturnReapplies` | src/daemon/dispatcher.rs:880-889 | The first check after an outage calls powerd exactly once, whatever was applied before |
| `PowerRuns.CheckIsIdempotent` | src/daemon/power_policy.rs:12-74 | A second check on unchanged inputs changes nothing and emits nothing, whatever answers have changed |
| `PowerRuns.EchoIsNoOpExactlyWhen` | src/daemon/dispatcher.rs:826-843 | An override notification is a no-op exactly when it says what the context holds |
| `PowerRuns.ExpiryIsFinalExactlyWhen` | src/daemon/effectors.rs:667-679 | An expired override comes back with an echo exactly when its file could not be removed |
| `PowerRuns.BrightnessIsConserved` | src/daemon/effectors.rs:705-790 | Over any base states and wakes from the charger on, with only the daemon writing, each check on the charger shows the starting value; off it the start capped at half, and at a quarter once low, never below 1 |
| `PowerRuns.TurnTracks` | src/daemon/power_policy.rs:56-73 | One check or wake keeps that, and off the charger never brightens |
| `PowerRuns.DarkPanelIsNotConserved` | src/daemon/effectors.rs:738-738 | Unplugging and plugging back conserves the level exactly when it was at least 1 |
| `PowerOutcomes.CheckAfter` | src/daemon/power_policy.rs:12-54 | Everything a check does but to the panel: override, stamp, file, applied profile by the policy field of the base, availability, and the calls in order |
| `PowerOutcomes.PanelAfterCheck` | src/daemon/power_policy.rs:56-73 | The exact panel after every check, whoever moved it last |
| `PowerOutcomes.UserLevelStandsExactlyWhen` | src/daemon/effectors.rs:716-727 | Once the user moved the panel beyond the slack in either direction, an edge leaves the level alone, forgets the saved one and takes the level as set, except when unplugging leads straight into a low battery |
| `PowerOutcomes.UnmovedPanelIsRestored` | src/daemon/effectors.rs:750-790 | Within the slack, unplugging saves and caps and plugging in shows the saved level, up to the maximum and never dark |
| `PowerOutcomes.PlugInKeepsTheLevelExactlyWhen` | src/daemon/effectors.rs:781-790 | A plug-in keeps the level if and only if the user moved it, nothing is saved, logind refuses, or the two agree |
| `PowerOutcomes.PlugInNeverOverwritesTheUser` | src/daemon/effectors.rs:781-790 | Over any checks off the charger: a level the user chose there is not overwritten by the next plug-in |
| `PowerOutcomes.WakeForgetsTheUser` | src/daemon/effectors.rs:792-798 | A wake in between takes the user's level for drift, and the plug-in writes the saved one unless nothing is saved or the two agree |
| `PowerOutcomes.NewOverrideIsStampedNext` | src/daemon/dispatcher.rs:826-843 | A new override word starts unstamped; the next check stamps and applies it |
| `PowerOutcomes.AdoptedProfileBecomesTheOverride` | src/daemon/effectors.rs:683-703 | A profile set from outside becomes the override, unstamped, and the next check applies it |
| `PowerOutcomes.ClearedOverrideIsGone` | src/daemon/dispatcher.rs:826-843 | Without a word the next check applies the policy field of its base |
| `PowerOutcomes.WakeTakesTheLevel` | src/daemon/effectors.rs:794-798 | A wake takes the panel's level for the daemon's own |
| `PowerOutcomes.NoPanelNoBrightness` | src/daemon/effectors.rs:705-790 | Without a panel nothing is saved, capped or restored |
| `PowerPolicy.PowerDaemon.PowerPolicyCheck` | src/daemon/power_policy.rs:12-74 | The whole routine, equal to the value form of the theorems |
| `Power.PowerBaseState` | crates/hyprstate-fsm/src/power.rs:112-124 | The AC side is the settled charger alone; battery-low exactly when off it and low; docked exactly when on it beside an external |
| `SelfWrites.TrackerIsOneTimestamp` | crates/hyprstate-fsm/src/power.rs:454-478 | Over any registrations and queries with a forward clock, the answer is "own" exactly within 5 s of the last registration, whatever value is asked and whatever was consumed |
| `SelfWrites.ConsumedByItsOwnWords` | crates/hyprstate-fsm/src/power.rs:67-75 | A registered apply is consumed by exactly the words of its profile's fallback chain |
| `SelfWrites.ConsumesTheOldestMatch` | crates/hyprstate-fsm/src/power.rs:468-478 | A query prunes what has expired and consumes at most one entry, the oldest live one that holds the value |
| `SelfWrites.SelfWriteTracker.Register` | crates/hyprstate-fsm/src/power.rs:460-466 | Updates entries and window in place |
| `SelfWrites.SelfWriteTracker.IsSelfWrite` | crates/hyprstate-fsm/src/power.rs:468-478 | Prunes, consumes the first match, else asks the window |
| `CaptureRoundTrip.RoundTrip` | crates/hyprstate-fsm/src/profiles.rs:67-139 | For every layout with an enabled monitor and newline-free texts, parsing the rendered profile gives back without warnings the match list, both policies, and any i64 priority or the match count |
| `CaptureRoundTrip.CapturesTheExternals` | crates/hyprstate-fsm/src/profiles.rs:212-232 | The matches are the enabled externals by position, or the enabled panel; enabled and disabled split the monitors |
| `CaptureBody.BodyReadsBack` | crates/hyprstate-fsm/src/profiles.rs:290-310 | A reader of hl.monitor lines that knows nothing of the renderer gets back every monitor: the enabled ones with output, mode, position, scale and transform, then the disabled ones |
| `CaptureBody.LayoutIsExactly` | crates/hyprstate-fsm/src/profiles.rs:212-232 | Enabled left to right, then top to bottom, equals as given; disabled as given; to match on, the externals left to right, or all that is enabled |
| `CaptureBody.CommasAreWarnedOf` | crates/hyprstate-fsm/src/profiles.rs:186-200 | A warning names exactly the externals with a comma in their description |
| `CaptureRoundTrip.DescriptionSurvivesExactlyWhen` | crates/hyprstate-fsm/src/profiles.rs:53-53 | A description comes back unchanged exactly when it does not end in white space |
| `Capture.CaptureLayout` | crates/hyprstate-fsm/src/profiles.rs:212-232 | Capture fails exactly when nothing is enabled, and otherwise always has something to match on |
| `Capture.Rendered` | crates/hyprstate-fsm/src/profiles.rs:260-315 | Rendering fails exactly when nothing is enabled |
| `Capture.RenderDirectives` | crates/hyprstate-fsm/src/profiles.rs:236-256 | The directive writer's loop equals the specified text |
| `Capture.RenderRules` | crates/hyprstate-fsm/src/profiles.rs:290-310 | The rule loops equal the specified text, with a warning for each comma |
| `Capture.RenderProfileLua` | crates/hyprstate-fsm/src/profiles.rs:260-315 | The renderer as it runs equals the rendered text of the theorem |
| `Directives.ParseProfile` | crates/hyprstate-fsm/src/profiles.rs:67-139 | The parser's loop equals the scan the round trip is about, on every text |
| `ProfileMeaning.ParsesExactlyWhen` | crates/hyprstate-fsm/src/profiles.rs:46-61 | A line parses as a key and a value if and only if it spells them: leader of either dialect, white space, key, equals sign, value |
| `ProfileMeaning.ProfileMeans` | crates/hyprstate-fsm/src/profiles.rs:67-139 | What every text parses to: matches and hooks in order, the last edp, gpu and priority of the header block, its warnings; a bad word fails the profile, the first one naming the error, and so does a header without a match |
| `Text.ParsesExactlyWhen` | crates/hyprstate-fsm/src/profiles.rs:114-120 | A text parses as a number if and only if it is an optional sign and digits within 64 bits |
| `Text.EitherEnding` | crates/hyprstate-fsm/src/profiles.rs:79-79 | A line is what stands before a newline or before a carriage return and newline |
| `Text.IntRoundTrip` | crates/hyprstate-fsm/src/profiles.rs:114-120 | Every i64 printed in decimal parses back |
| `LuaLiteral.QuoteRoundTrip` | crates/hyprstate-fsm/src/profiles.rs:330-345 | Reading the quoted string by the manual's rules consumes exactly the literal, for every string and whatever follows; it yields the string exactly when no NUL stands before a digit |
| `LuaLiteral.NulBeforeDigitIsMisread` | crates/hyprstate-fsm/src/profiles.rs:339-339 | NUL followed by 5 comes back as the one byte 5 |
| `LuaLiteral.EscapesExactlyFive` | crates/hyprstate-fsm/src/profiles.rs:334-341 | Five bytes are escaped, each in its own way; every other byte stands for itself |
| `LuaLiteral.LuaStringLiteral` | crates/hyprstate-fsm/src/profiles.rs:330-345 | The quoter's loop equals the specified literal |
| `Kbd.RawIsTheNearestLitValue` | crates/hyprstate-fsm/src/kbd.rs:76-83 | Within 0..max, 0 exactly for level or maximum 0, max at 100, within half a step of exact, halves up, once that reaches half a unit, and 1 below it |
| `Kbd.AnyLevelStaysInRange` | crates/hyprstate-fsm/src/kbd.rs:76-83 | For every 8-bit level: within 0..max, 0 exactly for level or maximum 0, and max from 100 up wherever the cast loses no bit |
| `Kbd.RawIsMonotone` | crates/hyprstate-fsm/src/kbd.rs:76-83 | Monotone in level and in maximum |
| `Kbd.CastLosesNothing` | crates/hyprstate-fsm/src/kbd.rs:80-80 | The 32-bit cast keeps every bit for every percent |
| `Kbd.WrittenLevelFits` | crates/hyprstate-fsm/src/kbd.rs:64-83 | For every sequence of presses: the cast loses no bit, the written value is off exactly for level or maximum 0, full at 100, within half a step of exact, and monotone |
| `Kbd.PressesMove` | crates/hyprstate-fsm/src/kbd.rs:64-74 | Up and down move the level by ten within the percent range, set takes the word within it, and the level starts at 50 |
| `Kbd.CastIsSafeExactlyForPercents` | crates/hyprstate-fsm/src/kbd.rs:80-81 | The cast loses no bit for every 32-bit maximum if and only if the level is a percent |

## Left out

- D-Bus, hyprctl, Wayland, netlink, inotify and sysfs: every answer they give is an arbitrary input of the dispatch or an arbitrary event.
- A dispatch is one step at one instant: its waits (the lock wait among them) take no time, and the request file does not change inside it.
- The value functions of `Suspend` leave the power policy, the GPU drift advice and the keyboard out of a dispatch; none of them touches the machine's inputs, and the power policy is modelled apart in `PowerPolicy`.
- Debounce timers (monitor reconcile, charger settle), the reconcile scheduler and the inotify task are not modelled; the events they send may arrive at any time in any number, stale ones included.
- Shadow mode, and file writes that fail half-way: a failed write or removal leaves the file as it was. `PowerRuns.OverrideLifetime` is stated for runs in which the override file can be removed; `PowerRuns.ExpiryIsFinalExactlyWhen` is the other case.
- Startup beyond what `SuspendRuns.Boot` does: a request file that appears after the leftover one was cleared and before the loop starts, and powerd's startup apply.
- `Suspend.AdoptProfile`: which profile a monitor signature or the active link selects is an arbitrary answer, since profile selection and `monitor_profiles` are not part of this model.
- Workspace re-homing, hooks, notifications, telemetry, tracing, waybar, and the command line.
- The keyboard backlight policy over runs; only its level arithmetic is modelled.
- `PowerPolicy.PowerDaemon.PowerOverrideChanged`: words that name no profile do not occur here; the code logs and ignores them.
- powerd's lock is fair and taken at once when free, as tokio documents for its mutex; the scheduler's cooperative budget, which could delay the first poll of a free lock, is not modelled.
- The table from a platform_profile word to the profile it stands for; an adopted profile enters as a profile.
- An `ApplyProfile` call with a word that names no profile is answered with an error before it writes the slot, and is not a call in `Powerd`.
- Floating point: the brightness caps are exact halves and quarters rounded down, as the 64-bit products are for every 32-bit backlight maximum; the takeover slack is any natural number; battery percentages are real numbers.
- `Gpu.Insert` and `Capture.Insert` stand for the library's stable sort; the order a stable sort produces is unique.
- `Gpu.Card` keeps what selection reads; resolving the mode from override, profile and platform, and the runtime-PM pin, are flat tables.
- `Capture.Monitor`: refresh rate and scale enter as the texts the number formatter prints.
- `Directives.Profile`: the policy words are those the parser accepts; legacy profile formats are not part of this model.
- Characters in `LuaLiteral` are bytes, as Lua reads them; that the quoter walks Unicode characters makes no difference, since it escapes ASCII only and UTF-8 uses no ASCII byte inside a longer character.
- The battery threshold is any natural number here; the parser clamps it to 1..50, so the 8-bit sum in the code never overflows.
- `power.conf` parsing, the knob matrix, backlight and LED discovery, the sleep hook and packaging.
