# km-hub: a verified model

km-hub is a keyboard and mouse hub. One set of input devices drives the hub itself or any of
several Bluetooth hosts; Ctrl+Alt+F*n* selects the target, and the LEDs show which one is active.
This project models the hub's four cores in Dafny and proves what they promise over whole runs:

1. **Input**: hotkeys, the router and the report translator
   (`Keys`, `ComboNames`, `Hotkey`, `HidReports`, `Keymap`, `Translate`, `RouterSpec`, `Router`).
2. **Bluetooth LE manager**: held frames, subscriptions, pairing windows, the stuck-host ladder and
   the one-host-at-a-time mode (`Replay`, `Gatt`, `ManagerSpec`, `Manager`).
3. **Lighting**: the lamp's timers and the cache in front of the OpenRGB server
   (`Lighting`, `LightingCache`).
4. **The OpenRGB wire format** (`WireFormat`, `OpenRgb`).

Each object of the program is a class whose methods change the same fields in place, with the same
branches, constants and loops. Every method is proved to leave exactly the state that a pure step
function gives. What the program promises is then proved about these step functions, over every run
of them (`TranslateRuns`, `NoStuckKeys`, `HostViews`, `Safety`, `PassedKeys`, `RouterMotion`,
`Announcements`, `MotionPacing`, `RepairGesture`, `HeldFrames`, `Thinning`, `ReplayDelivery`,
`SwitchLosses`, `DroppedReleases`, `PairingWindows`, `Advertising`, `StuckHosts`, `OneHost`, `LightRuns`,
`WireProofs`, `Descriptions`, `CachedLighting`, `DrivenDevices`), and across them: `LastReports` and
`HubToHost` follow the frames from the keys through the router and the manager to the host.

Each `select!` loop is a step relation over integer time. Whatever BlueZ, a socket or a clock
answers is an argument of the step, so a result holds for every combination of successes and
failures. All calls made in one turn of a loop see the same instant.

## Where the code falls short of its documentation

For each of these the model keeps the code's behaviour, and the exact condition is proved.

- **A release that is still unsent at a switch.** `release_all` looks at the state, not at the dirty
  flags. If a button went up but its report has not gone out, nothing is sent on the way out and the
  host keeps the button held. `HostViews.ReleaseClearsUnlessLagging` and `HostViews.StepKeepsSync`
  say exactly when; `Counterexamples.UnsentButtonReleaseSticks` is a run.
- **A second press of a key that is already down.** If it completes a combination whose target stays
  active, its release is swallowed and nothing lets go of it. `NoStuckKeys.StepKeepsJustified` is an
  if-and-only-if; `Counterexamples.RepressedTriggerSticks` is a run.
- **Frames queued or held at a switch.** The queue is drained before frames are held for the new host,
  so queued frames are given to whoever has the report enabled and are otherwise lost. If no send to
  the host fails, what was queued for it arrives, less pointer motion, if and only if it has the report
  enabled or nothing but motion was queued: `SwitchLosses.QueuedFramesArriveExactlyWhen`,
  `QueuedKeysArriveExactlyWhen`; `QueuedFrameIsLost` is a run. What was already held is thrown away by
  every switch turn, also by one back to the slot it came from: `SwitchLosses.SwitchDropsWhatWasHeld`.
- **The frame that brings a switch comes last.** A frame for another slot makes the loop take the switch
  first, which drains what is queued behind that frame, and only then is the frame itself routed. A host
  that has the report enabled all along gets its frames out of order, unless every frame of that report
  queued for it is equal to the one that brought the switch:
  `SwitchLosses.BringerIsOvertakenExactlyWhen`. `ReleaseOvertakesPress` is a run that ends with the key
  stuck down: the host gets the release before the press.
- **A release dropped as motion during the wait.** A mouse frame held back is compared with the last
  mouse frame held back, not with the last one routed, and frames that went out live in between do not
  count. If a host closes its mouse report during the wait after a live press, the release can be
  dropped as motion. It is lost if and only if its buttons are those of the last frame held back since
  the wait began (none before the first) and differ from those of the last frame routed:
  `DroppedReleases.ChangeIsDroppedExactlyWhen`; `ReleaseIsLostForGood` is a run that ends with the host
  attached and the button stuck.
- **Pairable without a window.** If the advertisement is refused after the adapter was made pairable,
  or the adapter refuses to stop being pairable when a window closes, it stays pairable with no
  window. `PairingWindows.PairableOutsideWindowExactlyWhen`; `RefusedAdvertisementLeavesPairable` is a run.
- **An open window nobody can see.** A request to replace an open window takes the advertisement
  down first; if the new one is refused, the old window stays open and invisible until it closes or
  another request succeeds. `PairingWindows.WindowHiddenExactlyWhen`, `OnlyARequestChangesVisibility`;
  `RefusedReplacementHidesTheWindow` is a run.
- **Two slots with one address.** `merge` (src/state.rs:79-109) lets a configured address repeat a
  learned one on another slot. In single mode the hub then tells its own active host to go: at a tick
  that finds it present with no window open and no note of it under 5 s old, if any other slot has its
  address; or when it arrives with no window open, if a lower slot has.
  `OneHost.ActiveHostIsSentAwayExactlyWhen` is an if-and-only-if over all turns;
  `OneHost.SharedHostIsToldAgainAndAgain` is the input, told every five seconds for good. With injective
  starting bindings, which every turn keeps, it never happens.
- **Motion pending at a switch is discarded** by `release_all`. `TranslateRuns.MotionIsAccountedFor`:
  what is missing is exactly what was pending at each release; `UnflushedMotionIsDropped` is a run.

Timers are never taken to be on time. Where lateness matters it is a parameter, and the bound is exact:
with timers at most 102.857 ms late, an activity ping that does not find the lamp going dark finds it
fully lit, and a microsecond more breaks that (`LightRuns.PingsFindTheLampLit`,
`LaterTimersLetPingsInterrupt`); with timers less than 960 ms late pings cannot starve a fade in, and
from 960 ms on steady typing can (`LightRuns.PingsCannotStarveTheFade`, `LaterTimersLetPingsStarve`).

## Model

| member | source | states |
|---|---|---|
| Keys.FromHeld | src/input/keys.rs:101-110 | folding the held keys, in any order, collects exactly the modifiers with a held key |
| ComboNames.FromStr | src/input/keys.rs:151-188 | a text is accepted only as the combination it names; a rejected text names none, and the error says why |
| ComboNames.RejectedMeansNothing | src/input/keys.rs:154-187 | empty tokens, repeated modifiers, unknown names, modifier triggers, second and missing triggers each rule out every reading |
| ComboNames.DenotesAtMostOne | src/input/keys.rs:154-187 | a text names at most one combination |
| ComboNames.JoinSplit | src/input/keys.rs:157-157 | every text is its plus-free tokens joined by plus signs |
| ComboNames.SplitJoined | src/input/keys.rs:157-157 | splitting the join of plus-free tokens gives them back |
| ComboNames.OrderDoesNotMatter | src/input/keys.rs:154-187 | a text and any permutation of its tokens name the same combinations |
| ComboNames.ParsePermuted | src/input/keys.rs:151-188 | the parser accepts both or neither, with the same result |
| ComboNames.AliasesAreModifiers | src/input/keys.rs:52-59 | `control`, `meta` and `win` read as Ctrl, Super and Super |
| ComboNames.RespellingDoesNotMatter | src/input/keys.rs:154-187 | replacing a token by one that reads alike does not change what the text names |
| ComboNames.PaddingAndCaseAreIgnored | src/input/keys.rs:154-187 | surrounding white space and letter case do not change what a token means |
| ComboNames.Display | src/input/keys.rs:140-149 | the printed form is the modifiers in their fixed order, then the key name |
| ComboNames.PrintedFormNamesTheCombo | src/input/keys.rs:140-188 | for every set of modifiers and every key, the printed form names the combination exactly if some token is read as that key |
| ComboNames.PrintParse | src/input/keys.rs:140-188 | printing and parsing gives a combination back exactly if its key can be named |
| ComboNames.ParsePrintParse | src/input/keys.rs:140-188 | parsing the printed form of a parsed combination gives it back |
| Hotkey.HotkeyFsm.WithMacros | src/input/hotkey.rs:69-75 | a later macro for the same combination replaces an earlier one; nothing is held |
| Hotkey.HotkeyFsm.OnKey | src/input/hotkey.rs:77-142 | verdict and new state are those of the step function |
| Hotkey.HotkeyFsm.SuppressHeld | src/input/hotkey.rs:89-98 | lists the held keys of the modifiers in order and claims exactly these |
| Hotkey.SwitchesExactlyOnReserved | src/input/hotkey.rs:77-113 | the switch branch is taken exactly by a press that makes a reserved combination, with its slot, and asks for hooks exactly with Shift |
| Hotkey.MacrosMatchExactly | src/input/hotkey.rs:114-128 | a macro runs exactly when its trigger is pressed with exactly its modifiers held and the combination is not reserved |
| Hotkey.CombosNameTheHeldModifiers | src/input/hotkey.rs:77-128 | a switch names exactly the held Ctrl, Alt and Shift keys, a macro exactly the held modifier keys |
| Hotkey.SuppressionStep | src/input/hotkey.rs:77-142 | an event frees a swallowed key only by its release and claims keys only by a combination |
| Hotkey.SuppressedHeldThroughout | src/input/hotkey.rs:77-142 | over any stream, only held keys are swallowed |
| Hotkey.SuppressedOnceNamed | src/input/hotkey.rs:77-142 | over any stream without its press or release, a key becomes swallowed exactly when a combination names it |
| Hotkey.ReleaseAnswersPress | src/input/hotkey.rs:77-142 | a passed press is answered by a passed release, unless a combination named the key in between: then by a swallowed one |
| Hotkey.TriggerNeverLeaks | src/input/hotkey.rs:77-142 | a trigger's repeats, repeated presses and release never reach a target |
| HidReports.SwapMovesTwoBits | src/hid/translate.rs:266-268 | the byte arithmetic exchanges Left Alt and Left GUI, changes no other bit, and undoes itself |
| HidReports.SwapBitsTwice | src/hid/translate.rs:266-268 | decoding in the Mac layout what was sent in it gives the physical modifiers |
| HidReports.SignedByteRoundTrip | src/hid/translate.rs:222-231 | a step of at most 127 survives the signed byte |
| Keymap.MeaningsAreDistinct | src/hid/translate.rs:233-383 | apart from the two spellings of the thumb buttons, no two keys send the same thing |
| Keymap.TablesAreInverse | src/hid/translate.rs:270-383 | a key sends a usage of the keyboard page exactly if the usage is that key's: the table and its inverse agree |
| Keymap.RowsSendWhatTheyPrint | src/hid/translate.rs:283-377 | the rows of keys from Q, A, Z, 1 and keypad 7 on send the usages of what is printed on them |
| Keymap.FunctionKeysInOrder | src/hid/translate.rs:336-347 | F1 to F12 send twelve usages in order |
| Keymap.ModifierBitsBySide | src/hid/translate.rs:274-281 | Ctrl, Shift, Alt and GUI are bits 0 to 3 on the left and 4 to 7 on the right |
| Translate.Translator.constructor | src/hid/translate.rs:36-38 | everything is up and clean |
| Translate.Translator.SetMacLayout | src/hid/translate.rs:41-43 | changes the layout and nothing else |
| Translate.Translator.HandleKey | src/hid/translate.rs:47-104 | the bytes and the array, worked on in place, mean what the set machine says; repeats change nothing |
| Translate.Translator.PressKey | src/hid/translate.rs:86-95 | the array of six gains the usage exactly if it is new and there is room |
| Translate.Translator.ReleaseKey | src/hid/translate.rs:95-101 | the array loses exactly the usage and is compacted |
| Translate.Translator.Compact | src/hid/translate.rs:98-98 | the used entries come first, and the array is a permutation of what it was |
| Translate.Translator.HandleRel | src/hid/translate.rs:107-115 | motion accumulates on its axis |
| Translate.Translator.FlushKeyboard | src/hid/translate.rs:127-134 | one report, only if something changed, decoding to the held modifiers in the layout and the held usages |
| Translate.Translator.FlushConsumer | src/hid/translate.rs:137-144 | one report, only if something changed, decoding to the active usage |
| Translate.Translator.FlushMouse | src/hid/translate.rs:158-177 | the loop ends and its frames decode to the motion split step by step under the held buttons |
| Translate.Translator.ReleaseAll | src/hid/translate.rs:181-203 | all state and motion is cleared; a release is emitted for each non-empty part |
| TranslateRuns.ReportsCarryTheMotion | src/hid/translate.rs:158-177 | the reports of one flush sum to the pending motion, each within -127..127 |
| TranslateRuns.MotionConserved | src/hid/translate.rs:107-177 | over any calls without a release, emitted plus pending motion is what was pending plus what was fed |
| TranslateRuns.MotionConservedSinceRelease | src/hid/translate.rs:107-204 | over any calls, emitted since the last release plus pending is what was fed since |
| TranslateRuns.MotionIsAccountedFor | src/hid/translate.rs:107-204 | over any calls, emitted plus what each release dropped plus pending is what was pending at the start plus what was fed |
| TranslateRuns.UnflushedMotionIsDropped | src/hid/translate.rs:181-203 | any motion fed to a fresh translator and not flushed is dropped by a release |
| TranslateRuns.FlushEmitsTheMinimum | src/hid/translate.rs:158-177 | a flush emits none if nothing is due, else max(1, ceil(max(abs dx, abs dy, abs wheel) / 127)) reports |
| TranslateRuns.NoShorterSplit | src/hid/translate.rs:158-177 | no sequence of 8-bit motions with the same sum is shorter |
| TranslateRuns.KeysAreHeldMinusDropped | src/hid/translate.rs:86-101 | over any calls, at most six usages are reported, and held usages split into reported and dropped ones |
| TranslateRuns.KeysAreAllHeldExactlyWhenNoneDropped | src/hid/translate.rs:86-101 | the reported usages are all held ones exactly when none is still dropped |
| PassedKeys.StepReports | src/hid/translate.rs:47-104 | after any event a modifier, key, button or consumer key is reported exactly if its press was just passed to the slot (a seventh key excepted), or it was reported and the event neither lets go of it, names it, replaces it nor leaves the target |
| PassedKeys.ReportedIsStanding | src/hid/translate.rs:47-104 | over any run from an idle moment: reported exactly if some passed press took it and nothing has dropped it since |
| PassedKeys.TargetFollowsTheKeys | src/router.rs:212-386 | over any run of plain key events: on the hub itself every key, and on a remote slot every modifier and plain button, is down for the target exactly if it was passed on since the target was last left, is held, and no combination claims it |
| PassedKeys.HostShowsWhatIsDown | src/router.rs:184-254 | from the start through any tidy run to a SYN: the host takes each modifier, key, button and consumer key to be held exactly if a passed press took it and nothing has dropped it since, whatever its layout |
| PassedKeys.HostShowsTheModifiersHeld | src/hid/translate.rs:78-85 | and in terms of keys: it shows a modifier exactly if the key was passed on since the slot became active, is still down and is not claimed |
| PassedKeys.SinkHasTheKeysHeld | src/router.rs:222-238 | and so does the sink for every key while the hub itself is the target |
| RouterMotion.MotionReachesTheHost | src/router.rs:184-254 | while a remote slot stays active, on each axis what its reports carry plus what is pending is what was pending plus what was moved |
| RouterMotion.SinkGetsWhatIsForIt | src/router.rs:212-254 | over any run the sink gets exactly the motion and passed key events that came while the hub was the target, in order |
| Router.Router.constructor | src/router.rs:98-138 | a fresh router on its slot, in its layout, with its macros, the later of two equal ones |
| Router.Router.Handle | src/router.rs:212-254 | effects and new state are those of the step function, for every event, and every event pings the activity coalescer |
| Router.Router.ReleaseComboMods | src/router.rs:298-315 | releases the held modifiers on the target that stays active |
| Router.Router.SwitchTo | src/router.rs:317-386 | re-assert, pairing request or real switch, with the release of the target left |
| Router.Router.LeaveTarget | src/router.rs:354-368 | everything held on the target being left is released there |
| Router.Router.RunMacro | src/router.rs:417-427 | releases the modifiers, then hands the macro over |
| Router.Router.PassKey | src/router.rs:222-238 | a passed key goes to the sink or the translator, and the sink's keys are tracked |
| Router.Router.FlushRemote | src/router.rs:184-198 | keyboard and consumer reports at once, motion at most once per interval or with a button change, else a deadline |
| Router.Router.FlushMouseNow | src/router.rs:200-210 | all motion goes out, the deadline is cleared, the time is noted if anything was sent |
| Router.Router.SyncRepairHold | src/router.rs:258-271 | the re-pair timer follows the combination key that is held |
| Router.Router.FireRepair | src/router.rs:275-288 | the request is made once per hold |
| Router.Router.Turn | src/router.rs:140-178 | each branch of the loop leaves what the step function says; timers do not count as activity |
| Announcements.NoticesAreDue | src/router.rs:317-427 | which notices an event has the router give, in order, from the key and the keys held alone: slot change, hook, macro, pairing request, repaint or re-pair request, and no others |
| Announcements.AnnouncedExactlyIfChanged | src/router.rs:376-386 | a slot change is announced exactly if the slot changes, to the slot it changes to |
| Announcements.EverythingIsAsAnnounced | src/router.rs:317-386 | over any run the slot announced last is the router's, every frame sent is for the slot announced before it, and the sink is written only while that is the hub |
| Announcements.HoldAsksForRepair | src/router.rs:258-288 | a slot's key held on to for three seconds after its combination, with no other slot asked for, leaves the timer due, and its firing asks the slot to re-pair |
| NoStuckKeys.StepKeepsJustified | src/router.rs:212-386 | a step leaves every key on the sink and every reported bit, usage and button witnessed by a held, unswallowed key exactly when it strands no trigger |
| NoStuckKeys.FreshPressesStrandNothing | src/input/hotkey.rs:77-142 | pressing only keys that are up strands nothing |
| NoStuckKeys.RunKeepsJustified | src/router.rs:212-386 | over any clean run everything held stays witnessed; off the hub's slot the sink holds nothing, on it the translator is idle |
| NoStuckKeys.AllUpMeansNothingHeld | src/router.rs:212-386 | once all keys are up, nothing is down on the sink or in a report |
| HostViews.ReleaseClearsUnlessLagging | src/hid/translate.rs:181-203 | the release on the way out clears the host exactly when the host does not still show something the translator let go of |
| HostViews.LaggingNeedsUnsentRelease | src/hid/translate.rs:181-203 | a host lags only when a release is unsent |
| HostViews.UnsentReleaseMayLag | src/hid/translate.rs:181-203 | for every state with an unsent release there is a host, up to date in everything sent, that lags |
| HostViews.StepKeepsSync | src/router.rs:184-386 | a step keeps hub, hosts and sink in agreement exactly when it is not a switch away from a lagging host |
| HostViews.RunKeepsSync | src/router.rs:184-386 | over any run that switches only with no release unsent, the active host has received all clean state and every other host shows nothing held |
| HostViews.AfterSynHostShowsPhysicalState | src/router.rs:184-198 | after a SYN the last reports decode, in the slot's layout, to the translator's state, and nobody else holds anything |
| Safety.AllKeysUpMeansNothingHeldAnywhere | src/router.rs:212-386 | from a start, over any well-formed run: when all physical keys are up, the next SYN leaves nothing held on the sink or on any host |
| LastReports.SwitchingLeavesIdle | src/router.rs:354-386 | right after a real switch the translator is idle, on the new slot |
| LastReports.LastFramesSayNothingIsHeld | src/router.rs:184-386 | from an idle moment to a SYN with all keys up: the last frame of each report sent to the slot says that nothing is held |
| Counterexamples.UnsentButtonReleaseSticks | src/hid/translate.rs:183-195 | a six-event run that leaves host 2 with a button held |
| Counterexamples.RepressedTriggerSticks | src/input/hotkey.rs:89-98 | a six-event run that leaves a usage reported with its key up |
| MotionPacing.StepKeepsPace | src/router.rs:150-210 | a set deadline is one interval after the last batch and only exists on a remote slot |
| MotionPacing.SynNeverForgetsMotion | src/router.rs:184-198 | after a SYN, motion held back has a deadline |
| MotionPacing.SynHoldsBackExactlyWhen | src/router.rs:184-198 | a SYN holds motion back exactly if no button changed and the interval since the last batch is not over |
| MotionPacing.ClockMovesWithBatches | src/router.rs:200-210 | the time of the last batch changes only with a batch |
| MotionPacing.IntervalFitsTheRate | src/router.rs:113-113 | the interval is the longest whole number of microseconds at which the rate is met; rate 0 counts as 1 |
| MotionPacing.DeadlineFlushesAll | src/router.rs:150-178 | the deadline is never early and sends everything pending |
| MotionPacing.MotionBatchesAreSpaced | src/router.rs:150-210 | over any run, each motion-only batch is at least one interval after the batch before it, button batches included |
| MotionPacing.WindowHoldsFewBatches | src/router.rs:150-210 | of the batches that fall within k intervals, at most k + 1 are motion-only |
| RepairGesture.RepairNeedsThreeSeconds | src/router.rs:258-288 | a re-pair request follows three unbroken seconds of the slot's key being down, never for the hub itself |
| RepairGesture.OnlyTheTimerRepairs | src/router.rs:275-288 | the request comes from the timer alone, for the slot it is armed for, and only if it has not fired |
| RepairGesture.OncePerHold | src/router.rs:258-288 | over any run, between two re-pair requests the hold of the first one's slot has ended |
| RepairGesture.HeldMeansTheKeyIsDown | src/input/hotkey.rs:77-142 | while a slot's hold lasts, a key of the slot is among the keys that are down |
| Replay.ReplayBuffer.Push | src/bt/replay.rs:52-70 | drops pure motion, evicts the oldest frame when full, keeps the rest |
| Replay.ReplayBuffer.Take | src/bt/replay.rs:72-85 | takes exactly the report's frames in order and leaves the others in order |
| Replay.EveryFrameIsAccountedFor | src/bt/replay.rs:52-85 | at most 64 frames; pushed = dropped + evicted + taken + remaining |
| Replay.HoldsTheLastFrames | src/bt/replay.rs:52-70 | without takes, exactly the last 64 frames that are more than motion |
| Replay.SurvivorsAreTheNewest | src/bt/replay.rs:52-85 | what is left of a report is a suffix of what was kept of it since its last take |
| Replay.LastMouseFrameHasLatestButtons | src/bt/replay.rs:52-85 | a surviving last mouse frame carries the latest button byte |
| Gatt.LeTransport.Subscribe | src/bt/gatt.rs:516-534 | a fresh generation is stored; `first` says the peer was unknown |
| Gatt.LeTransport.ForgetSub | src/bt/gatt.rs:538-553 | only the named generation is dropped, and the peer with its last subscription |
| Gatt.LeTransport.SendTo | src/bt/gatt.rs:556-594 | taken, swallowed by a busy link, failed or not wanted, and which failures end the subscription |
| Gatt.SendResult | src/bt/gatt.rs:556-594 | only motion is swallowed; a report that is not enabled is the only one not wanted |
| Gatt.LeTransport.DropPeer | src/bt/gatt.rs:634-644 | the peer is forgotten |
| Gatt.LeTransport.HasAllReports | src/bt/mod.rs:719-719 | whether every input report is enabled |
| Gatt.SubscribedExactlyWhenLatestIsLive | src/bt/gatt.rs:482-594 | over any history, a report is subscribed exactly when its latest subscription is still live, and the stored generation is that one |
| Gatt.StaleCloseIsIgnored | src/bt/gatt.rs:538-553 | a close message for an older generation, however late, changes nothing |
| Gatt.PeersAlwaysSubscribed | src/bt/gatt.rs:516-594 | no peer is remembered without a subscription |
| Gatt.FirstOncePerAttachment | src/bt/gatt.rs:516-534 | `first` is flagged exactly when the peer has no live subscription |
| ManagerSpec.SlotOf | src/bt/mod.rs:642-644 | the lowest slot bound to the address, or none if no slot is |
| ManagerSpec.FirstEligible | src/bt/mod.rs:1005-1023 | the first device that is bonded, new since the window opened and bound nowhere; none if there is no such device |
| Manager.Manager.constructor | src/bt/mod.rs:272-290 | nothing pending, open, advertised or noted |
| Manager.Manager.RouteFrame | src/bt/mod.rs:791-808 | a frame is held exactly for the awaited host's report that is not enabled; otherwise it is given to the transport |
| Manager.Manager.SendFrames | src/bt/mod.rs:824-826 | the replayed frames are given in order, each under the subscriptions the sends before it left |
| Manager.Manager.OnSubscribed | src/bt/mod.rs:813-840 | replays the report's held frames, and stops holding once every report is enabled |
| Manager.Manager.ArmPending | src/bt/mod.rs:713-728 | starts holding for the active host unless it is attached |
| Manager.Manager.PollPending | src/bt/mod.rs:880-890 | gives up after the replay window |
| Manager.Manager.SetAdvertising | src/bt/mod.rs:463-472 | the old advertisement is gone even if the new one is refused |
| Manager.Manager.ApplyAdvertising | src/bt/mod.rs:665-708 | an open window owns the advertisement; otherwise it runs, not discoverable, exactly if somebody is expected and BlueZ agrees |
| Manager.Manager.OpenWindow | src/bt/mod.rs:554-592 | opens a window, with each failed call leaving what it leaves |
| Manager.Manager.RepairSlot | src/bt/mod.rs:492-532 | unbinds the slot and opens a window, or does nothing if its window is open |
| Manager.Manager.CloseWindow | src/bt/mod.rs:594-603 | the window is gone; visibility is restored only for an unsettled one |
| Manager.Manager.BindAndSettle | src/bt/mod.rs:1024-1027 | the slot is bound, the window settled, the discoverable advertisement gone |
| Manager.Manager.PollWindow | src/bt/mod.rs:992-1028 | closes at the deadline, else binds the first eligible device |
| Manager.Manager.FindEligible | src/bt/mod.rs:1006-1023 | the loop finds the first eligible device |
| Manager.Manager.SlotOf | src/bt/mod.rs:642-644 | the loop finds the lowest slot of the address |
| Manager.Manager.OnIncomingPeer | src/bt/mod.rs:1036-1086 | keeps, sends away or binds a host that shows up |
| Manager.Manager.PollUninvited | src/bt/mod.rs:855-876 | the two loops drop, stamp and tell exactly the uninvited hosts, in slot order |
| Manager.Manager.ScanHost | src/bt/mod.rs:916-940 | one bound host of the scan |
| Manager.Manager.ScanHosts | src/bt/mod.rs:912-941 | the loop computes the fold over all slots |
| Manager.Manager.PollStuckHosts | src/bt/mod.rs:908-988 | kick, give up, wait or register again |
| Manager.Manager.Remedy | src/bt/mod.rs:942-988 | what is done for the host the scan came up with |
| Manager.Manager.DrainQueue | src/bt/mod.rs:755-757 | every queued frame is routed in order |
| Manager.Manager.ForgetHost | src/bt/mod.rs:782-787 | every note about the host is dropped |
| Manager.Manager.OnSlotChange | src/bt/mod.rs:743-779 | drain, hold, advertise, disconnect the old host, in this order |
| Manager.Manager.Tick | src/bt/mod.rs:407-414 | the five polls, in this order |
| Manager.Manager.Turn | src/bt/mod.rs:352-420 | each branch of the loop leaves what the step function says |
| HeldFrames.FramesStayInOrder | src/bt/mod.rs:713-840 | over any run: frames handed over, then those held, are an in-order, duplicate-free subsequence of those routed; nothing is held for an enabled report |
| HeldFrames.TurnKeepsOrder | src/bt/mod.rs:352-420 | one turn keeps both |
| HeldFrames.OnSubscribedKeepsOrder | src/bt/mod.rs:813-840 | replay hands over exactly what was held, and ending the wait loses nothing |
| Thinning.ThinningKeepsButtons | src/bt/gatt.rs:137-142 | leaving out motion-only frames keeps the last button byte and every change of it, in order |
| Thinning.ThinningKeepsKeys | src/bt/gatt.rs:137-142 | without mouse frames nothing can be left out |
| ReplayDelivery.OnlyMotionIsMissing | src/bt/mod.rs:713-840 | over a calm run delivered plus held is what was routed, less mouse frames that repeat the buttons of the one routed before, dropped by the wait or by a busy link; calm: no switch in single mode, no failed send of the report to the host, none of its held frames evicted, no timeout, no other report than the three subscribed to, and a subscription of the host ends only while it is waited for (for the mouse, only if its button byte stays and is the one frames are then compared with) |
| ReplayDelivery.TicksAreCalm | src/bt/mod.rs:908-988 | every tick within the replay window that does not tell the host to go is calm, whomever it kicks or registers again for |
| ReplayDelivery.KickedWhileAwaited | src/bt/mod.rs:179-183 | the awaited host, 3 s on the link without a subscription, is kicked, and the wait goes on untouched |
| ReplayDelivery.ClosesAreCalmForKeys | src/bt/gatt.rs:538-553 | for keys and consumer keys a host that is waited for may close any report |
| ReplayDelivery.WaitEndsExactlyInTime | src/bt/mod.rs:880-890 | a tick ends the wait exactly if it has lasted eight seconds |
| ReplayDelivery.RunKeepsSubscribed | src/bt/mod.rs:713-1057 | over any run no host is remembered without a subscription |
| ReplayDelivery.OnlyMotionIsMissingSinceTheStart | src/bt/mod.rs:293-302 | the same, over any calm run from the start of the program |
| ReplayDelivery.EveryButtonChangeArrives | src/bt/mod.rs:713-840 | so over a calm run the button bytes delivered and held change exactly as those routed |
| ReplayDelivery.KeysAreDeliveredOrHeld | src/bt/mod.rs:713-840 | for keys and consumer keys, delivered plus held over a calm run is exactly what was routed, also if the awaited host is kicked or closes reports |
| ReplayDelivery.NoKeyIsLost | src/bt/mod.rs:713-840 | once attached after a calm run, kicks and closed reports during the wait included, the host has received every key and consumer frame routed |
| SwitchLosses.SwitchAwaitsTheHost | src/bt/mod.rs:743-779 | a switch leaves its host awaited with nothing held |
| SwitchLosses.OnlyMotionIsMissingAfterASwitch | src/bt/mod.rs:713-840 | from a switch through any run after it that is calm for the report, what the host got or is held for it is what was routed less motion, with the same button changes; for the mouse, if the host has the report enabled or was last sent no button as held |
| SwitchLosses.SwitchDropsWhatWasHeld | src/bt/mod.rs:755-764 | after every switch turn nothing is held for anybody; what was routed is the queue and what was handed over is from the queue |
| SwitchLosses.SwitchLosesUnreadyFrames | src/bt/mod.rs:755-757 | nothing queued for a report that is not enabled arrives, whoever the host is |
| SwitchLosses.QueuedFramesArriveExactlyWhen | src/bt/mod.rs:755-757 | unless a send fails, queued frames arrive, less motion, exactly if the host has the report enabled or only motion is queued |
| SwitchLosses.QueuedKeysArriveExactlyWhen | src/bt/mod.rs:755-757 | queued keys arrive, all of them in order, exactly if none are queued or the report is enabled |
| SwitchLosses.QueuedFrameIsLost | src/bt/mod.rs:743-779 | a run from the start: a frame queued behind the switch to its unconnected host is neither delivered nor held |
| SwitchLosses.SwitchServesTheHostBeingLeft | src/bt/mod.rs:733-757 | unless a send fails, everything queued for a host that has the report enabled arrives before the host is dropped, less motion a busy link swallows |
| SwitchLosses.BringerIsOvertakenExactlyWhen | src/bt/mod.rs:386-402 | for keys and a host that has the report enabled throughout: what is queued behind the frame that brings the switch arrives before it, so in the order sent exactly if every such frame of the host and report is equal to it |
| SwitchLosses.ReleaseOvertakesPress | src/bt/mod.rs:395-399 | a run from the start: the press brings the switch, the release is queued behind, and the host gets the release first |
| DroppedReleases.WaitComparesWithTheHeldBack | src/bt/replay.rs:52-60 | over any run without a switch since the wait began, a frame is compared with the last mouse frame held back |
| DroppedReleases.ChangeIsDroppedExactlyWhen | src/bt/mod.rs:791-808 | a frame held back is lost exactly if its buttons are those of the last frame held back and not of the last one routed |
| DroppedReleases.ReleaseIsLostForGood | src/bt/mod.rs:791-840 | a seven-turn run in which an attached host has the press and never gets the release |
| HubToHost.RoutedIsFed | src/bt/mod.rs:386-402 | over a calm run, what is routed to a host is what the loop takes off its queue for the host's slot |
| HubToHost.HostIsLeftWithNothingHeld | src/bt/mod.rs:713-840 | all frames the router sends to the slot go through the manager over a calm run that ends attached: once all keys are up and a SYN has followed, the last keyboard, mouse and consumer frame the host received says that nothing is held |
| HubToHost.FromTheStart | src/bt/mod.rs:293-302 | this over any calm run from the start of the program |
| HubToHost.FromASwitch | src/bt/mod.rs:743-779 | this over any calm run from a switch to the host's slot, nothing for it queued behind the switch; for the mouse, if no button was last sent to the host as held |
| PairingWindows.PairingStaysSound | src/bt/mod.rs:463-708 | over any run: bindings stay injective, an open window's slot is free, and only an open window makes the hub discoverable |
| PairingWindows.TurnKeepsPairingSound | src/bt/mod.rs:352-420 | one turn keeps this, whatever BlueZ answers |
| PairingWindows.BindingsOnlyMoveThroughWindows | src/bt/mod.rs:992-1118 | a turn unbinds only the slot of a re-pair, and binds only the open window's slot to a bonded device bound nowhere, settling the window |
| PairingWindows.ClaimsAreMet | src/bt/mod.rs:992-1118 | with a window waiting, a tick that finds claiming devices binds the slot to one, and a claiming device's first subscription binds it |
| PairingWindows.WindowsLastAMinute | src/bt/mod.rs:492-603 | a window opens exactly by a granted request, for a minute; it ends exactly at the first tick after that, and keeps its slot and deadline until then |
| PairingWindows.PairableOutsideWindowExactlyWhen | src/bt/mod.rs:572-600 | a turn ends pairable with no window exactly when one of three calls failed |
| PairingWindows.RefusedAdvertisementLeavesPairable | src/bt/mod.rs:554-592 | a one-turn run from the start that ends pairable with no window |
| PairingWindows.WindowHiddenExactlyWhen | src/bt/mod.rs:463-592 | an open window loses its advertisement exactly when a request to replace it is refused |
| PairingWindows.RefusedReplacementHidesTheWindow | src/bt/mod.rs:463-592 | a two-turn run from the start that ends with the window open and no advertisement |
| PairingWindows.OnlyARequestChangesVisibility | src/bt/mod.rs:665-708 | while a window stays open nothing but such a request touches the advertisement |
| Advertising.AdvertisesForTheExpected | src/bt/mod.rs:463-708 | what every turn does to the advertisement: a tick, a single-mode switch and a settled or closed window leave it up exactly if an expected host has no link and BlueZ accepts or the earlier advertisement can stay, never discoverable; a granted request leaves it discoverable, a refused one takes it down; all else leaves it alone |
| Advertising.BootAdvertisesForTheExpected | src/bt/mod.rs:293-302 | the start leaves it up exactly if an expected host has no link and BlueZ accepts |
| Advertising.ConnectableExactlyWhileTheHostIsAway | src/bt/mod.rs:1128-1141 | in single mode, after any run and an accepted tick with no window waiting: up exactly if the active slot is a remote one whose host has no link |
| StuckHosts.EveryReregistrationIsInOrder | src/bt/mod.rs:908-988 | over any run every re-registration is spaced, after a return, and after a recent kick |
| StuckHosts.ReregistrationsAreSparse | src/bt/mod.rs:954-985 | any two are 10 s apart; two by one host have a tick that saw it away or a switch that forgot it between them |
| StuckHosts.ReregistrationFollowsKick | src/bt/mod.rs:942-977 | each follows a kick of the host under 30 s earlier with no tick since that saw it attached |
| StuckHosts.NeverUnderOtherHosts | src/bt/mod.rs:928-963 | none happens while another served bound host is connected and subscribed |
| StuckHosts.KicksEndNoSubscription | src/bt/mod.rs:908-988 | the poll leaves the transport as it is: whom it kicks has no subscription that could end |
| StuckHosts.PollLeavesOthersAlone | src/bt/mod.rs:908-943 | without a stuck host nobody is kicked and nothing registered |
| StuckHosts.PollClimbsForTheFirstStuckHost | src/bt/mod.rs:908-988 | the lowest stuck slot's host is kicked if it was not lately, whatever the cool-down; else given up if another served host is attached; else the services are registered again exactly if the cool-down is over and the call succeeds; and nothing else is done |
| OneHost.ActiveHostIsNeverSentAway | src/bt/mod.rs:743-1057 | whoever a turn tells to go is not the active slot's host afterwards |
| OneHost.ActiveHostIsNeverSentAwayInARun | src/bt/mod.rs:743-1057 | this at every turn of any run from injective bindings |
| OneHost.SweepReachesEverybodyElse | src/bt/mod.rs:855-876 | after a tick with the active host present and no window, every other connected bound host was told within 5 s, now exactly if it had not been |
| OneHost.SweepHitsActiveExactlyWhen | src/bt/mod.rs:855-876 | the sweep drops the active host exactly if it is present and not noted lately, no window is open, and another slot has its address |
| OneHost.ActiveHostIsSentAwayExactlyWhen | src/bt/mod.rs:743-1057 | a turn tells the active host to go exactly by such a sweep, or at its arrival with no window open if a lower slot has its address |
| OneHost.SharedHostIsToldAgainAndAgain | src/state.rs:79-109 | two slots with one address: the active host is told to go at every tick five seconds apart |
| OneHost.SweepDoesNotNag | src/bt/mod.rs:855-876 | over any run the sweep tells no host that was told by sweep, switch or arrival in the 5 s before |
| OneHost.ArrivalsAreTurnedAwayExactlyWhen | src/bt/mod.rs:1036-1086 | a host's first subscription ends with it told to go and not subscribed exactly if it is bound nowhere and cannot claim a window, or it must wait its turn with the active host present and no window |
| OneHost.SwitchLetsGoOfTheOldHost | src/bt/mod.rs:743-787 | a single-mode switch tells the host being left to go exactly if the new slot has another or none; it then has no subscription and its notes are wiped |
| Lighting.DimIsAFade | src/rgb/mod.rs:134-145 | monotone in the level, the identity at 255, black at 0 |
| Lighting.DimFollowsTheSquare | src/rgb/mod.rs:134-145 | each channel is its share by the square of the level, rounded down |
| Lighting.Lights.constructor | src/rgb/mod.rs:168-181 | lit, steady, counting down if a timeout is set |
| Lighting.Lights.OnEvent | src/rgb/mod.rs:223-246 | what each event does to the animation |
| Lighting.Lights.OnActivity | src/rgb/mod.rs:250-257 | the countdown starts again and the gate turns back up |
| Lighting.Lights.Tick | src/rgb/mod.rs:259-275 | the three deadlines, in this order |
| Lighting.Lights.SyncFade | src/rgb/mod.rs:278-281 | the fade timer is armed exactly off the goal |
| Lighting.Lights.StepFade | src/rgb/mod.rs:286-293 | one saturating step toward the goal |
| Lighting.Lights.TickAnim | src/rgb/mod.rs:295-313 | the next phase of the animation, on its own schedule |
| Lighting.Activity.Ping | src/rgb/mod.rs:85-91 | sent exactly if the last one is a second old |
| LightRuns.TimersAreArmedExactly | src/rgb/mod.rs:147-313 | over any run the fade timer is armed exactly off the goal, the animation timer exactly during an animation, and dark means no idle deadline |
| LightRuns.AsleepExactlyWhenSettled | src/rgb/mod.rs:185-190 | no timer is left exactly when nothing is left to move |
| LightRuns.FadeMakesProgress | src/rgb/mod.rs:283-293 | at most 24 steps down and 7 up, one fewer after each step, none exactly at the goal |
| LightRuns.LevelNeverJumps | src/rgb/mod.rs:248-293 | no event moves the level by more than one step or against the gate, so an interrupted fade reverses from where it is |
| LightRuns.EveryFadeStepCounts | src/rgb/mod.rs:259-293 | however late timers are served, while the gate keeps its direction each firing of the fade timer leaves exactly one step fewer and nothing else changes their number |
| LightRuns.FadesEndInTime | src/rgb/mod.rs:259-293 | with timers served at most some lateness after their deadline, a fade in ends within 7 and a fade out within 24 times (40 ms and the lateness) |
| LightRuns.PingsFindTheLampLit | src/rgb/mod.rs:82-91 | with timers at most 102.857 ms late, a ping that finds the lamp not dark finds it fully lit |
| LightRuns.LaterTimersLetPingsInterrupt | src/rgb/mod.rs:82-91 | from 102.858 ms on there is a run from a new desk, every event in time, in which a ping finds the lamp neither going dark nor fully lit |
| LightRuns.PingsCannotStarveTheFade | src/rgb/mod.rs:82-91 | with timers less than 960 ms late, between two pings of a fade in at least one step is taken |
| LightRuns.LaterTimersLetPingsStarve | src/rgb/mod.rs:82-91 | from 960 ms on there is such a run that ends with any number of pings a second apart and the lamp still black |
| LightRuns.DarkMeansNobodyThere | src/rgb/mod.rs:46-91 | dark only if there was no input for the timeout, less the second the coalescer may hide |
| LightRuns.InputAlwaysWakes | src/rgb/mod.rs:46-91 | after any input event the gate is not dark: the coalescer never swallows the event that wakes |
| LightRuns.BindFlashesTwice | src/rgb/mod.rs:235-311 | whatever else happens, a bind shows lit, off, lit, off at 180 ms and is then over |
| LightRuns.BindShowsItsColor | src/rgb/mod.rs:192-217 | with the gate fully up these are the bind color, black, the bind color, black and then the slot's color |
| LightRuns.WindowBlinksSteadily | src/rgb/mod.rs:225-301 | an open window blinks on a schedule that never drifts |
| LightRuns.WindowShowsItsColor | src/rgb/mod.rs:192-217 | with the gate fully up these are the pairing color and black by turns |
| LightRuns.ClosingEndsTheBlinking | src/rgb/mod.rs:223-246 | a closed window ends the blinking, showing the slot's color, and changes no other animation |
| LightRuns.SlotsTakeThePalette | src/config.rs:307-320 | the hub has its color, a slot its own if it has one, and the others the palette's in order from slot 2 on |
| LightRuns.ThePaletteRepeats | src/config.rs:307-320 | and from the palette's end over again |
| LightRuns.SlotsHaveTheirBrightness | src/config.rs:322-328 | every frame has its slot's own brightness if there is one, else the common one |
| LightRuns.GateMasksTheAnimation | src/rgb/mod.rs:192-217 | the gate shows the animation, or black, and never touches the brightness |
| WireFormat.CellsAt | src/rgb/proto.rs:364-375 | refused as absurd exactly if the size does not fit the machine's; read exactly if it also lies within the buffer |
| WireFormat.DeviceAt | src/rgb/proto.rs:305-387 | what is consumed lies within the buffer |
| OpenRgb.PutString | src/rgb/proto.rs:199-203 | a 16-bit length that counts the NUL, the bytes, the NUL |
| OpenRgb.WithSizePrefix | src/rgb/proto.rs:189-195 | a 32-bit length that counts itself |
| OpenRgb.Encode | src/rgb/proto.rs:121-146 | the appended fields are the mode's layout |
| OpenRgb.Frame | src/rgb/proto.rs:177-185 | magic, device, packet id, length, payload |
| OpenRgb.UpdateLeds | src/rgb/proto.rs:236-244 | one color repeated for every LED |
| OpenRgb.UpdateMode | src/rgb/proto.rs:246-248 | the mode packet |
| OpenRgb.Cursor.Take | src/rgb/proto.rs:262-276 | the bytes and the new position, or an error and no move |
| OpenRgb.Cursor.String | src/rgb/proto.rs:291-296 | the text before the first NUL, moving past the whole length |
| OpenRgb.Cursor.SkipString | src/rgb/proto.rs:298-301 | moves as far as reading would |
| OpenRgb.Cursor.ReadMode | src/rgb/proto.rs:319-353 | one mode, field by field |
| OpenRgb.Cursor.ReadModes | src/rgb/proto.rs:315-354 | the modes in order, or the first error |
| OpenRgb.Cursor.SkipMatrix | src/rgb/proto.rs:364-375 | moves past the map, or refuses it |
| OpenRgb.Cursor.SkipZones | src/rgb/proto.rs:357-376 | moves past every zone |
| OpenRgb.FirstPart | src/rgb/proto.rs:294-294 | the loop finds the bytes before the first NUL |
| OpenRgb.ParseDevice | src/rgb/proto.rs:305-387 | the device described, or the first error |
| OpenRgb.Stream.ReadPacket | src/rgb/proto.rs:160-175 | one packet off the front, or why not |
| OpenRgb.Stream.ReaderLoop | src/rgb/mod.rs:364-378 | every packet up to the first error, in order |
| WireProofs.DescriptionIsPrefixDetermined | src/rgb/proto.rs:252-387 | any buffer that shares the bytes consumed gives the same device |
| WireProofs.ShorterDescriptionsFail | src/rgb/proto.rs:252-387 | a prefix gives the same device exactly if the whole parses and the prefix has all the bytes consumed; any other prefix is an error |
| Descriptions.DescriptionReadsBack | src/rgb/proto.rs:305-387 | a description laid out field by field, with any modes, zones and LED maps whose lengths fit and any tail, parses to its device and ends at the LED count |
| Descriptions.OnlyTheDeviceMatters | src/rgb/proto.rs:305-387 | two such descriptions parse alike exactly if they agree on name, kind, active mode, modes and LED count |
| WireProofs.ModeReadsBackExactlyIfEncodable | src/rgb/proto.rs:121-146 | a mode's fields, wherever they stand, read back as the mode exactly if the name has no NUL and both lengths fit 16 bits |
| WireProofs.ModePacketReadsBack | src/rgb/proto.rs:121-146 | a mode packet's payload is its own length, the index, and fields that read back as the mode |
| WireProofs.PacketReadsBackExactlyIfSmall | src/rgb/proto.rs:160-185 | a framed packet reads back, leaving what follows, exactly if its payload is within 4 MiB |
| WireProofs.OnlyFramedPacketsAreRead | src/rgb/proto.rs:160-185 | whatever is read as a packet stood there as that packet framed, followed by the rest |
| WireProofs.PacketsReadBack | src/rgb/proto.rs:160-185 | any concatenation of frames within the limit reads back as the same list |
| WireProofs.PartialPacketWaits | src/rgb/proto.rs:160-175 | however much of the next packet has arrived, the list so far is exact and the packet is not read early |
| WireProofs.LedPacketReadsBack | src/rgb/proto.rs:236-244 | the payload is its own length, the count, and that many copies of the color |
| WireProofs.ColorsAreDistinctOnTheWire | src/rgb/proto.rs:67-70 | no two colors share a wire value |
| LightingCache.ChosenMode | src/rgb/mod.rs:350-362 | the first direct mode; without one the first per-LED mode; without either the active mode, or the first if there is no such mode |
| LightingCache.MapBrightness | src/rgb/mod.rs:338-345 | within the mode's range, the maximum from 100 percent on, the minimum at 0 |
| LightingCache.FlagsByPosition | src/rgb/proto.rs:108-118 | brightness, per-LED and mode-specific color are bits 4, 5 and 6 of the flags, whatever the others |
| LightingCache.BrightnessIsMonotone | src/rgb/mod.rs:338-345 | more percent is never darker |
| LightingCache.Conn.Enumerate | src/rgb/mod.rs:439-499 | succeeds exactly if every description parses, and then starts from the drivable devices with nothing pushed |
| LightingCache.Conn.Update | src/rgb/mod.rs:512-551 | the changes noted and the packets listed are those needed |
| LightingCache.Conn.Apply | src/rgb/mod.rs:506-561 | the bytes written are the packets needed, target by target |
| CachedLighting.AdjustingForgets | src/rgb/mod.rs:512-543 | a mode adjusted for one frame and then another is adjusted for the other |
| CachedLighting.TargetAgrees | src/rgb/mod.rs:512-551 | leaving out the mode packet when the cache says so changes nothing on the device |
| CachedLighting.CachedEqualsPlain | src/rgb/mod.rs:439-561 | over any frames and device readings, the hardware driven through the cache is the hardware sent every packet every time |
| DrivenDevices.EveryDeviceShowsTheFrame | src/rgb/mod.rs:439-561 | over any run, after the devices were read and a frame shown: a device whose chosen mode takes a color has that mode as described but for the share of its brightness range and the frame's color (on every LED, or as first mode color in mode-specific coloring); any other is as it was found |
| DrivenDevices.CommandsReadBack | src/rgb/proto.rs:236-248 | the bytes written for any commands are read off the stream as exactly their packets, each with its device, its kind and the mode or the copies of the color |

## Left out

- Channels and sinks accept what they are given: `try_send` drops (src/router.rs:430-440) and sink errors are not modelled, and a message is seen without delay.
- Accumulated motion and the statistics counters are unbounded integers; 32-bit overflow is not modelled.
- The classic transports (L2CAP, the log transport), dialling and healing a stale binding are not part of this model; the manager is the one for Bluetooth LE.
- Cancelling a loop and what is done on the way out are not part of this model.
- BlueZ, the pairing agent, GATT and SDP tables, re-registration and shutdown of the GATT application appear only as the outcome of a call.
- Binding names, the configuration file and state.toml are not part of this model; a binding is a slot's address, an address a number.
- The logs that the manager's theorems speak of are ghost; log messages and lighting notifications are not modelled.
- Hook and macro processes, evdev discovery and uinput are not part of this model; the local sink is the set of keys it was told are down.
- evdev's key-name table is abstract: `ComboNames.Sound` says what printing needs of it.
- OpenRGB strings are bytes; UTF-8 decoding and its lossy replacement are not modelled.
- The handshake, reconnect backoff and rescans of the lighting connection are not modelled; a reconnect is a device reading with the hardware in any state, which is also what follows a failed write.
- An OpenRGB device is taken to keep its mode and its LED colors apart: a mode packet sets the one, an LED packet the other.
- An activity ping is delivered when it is sent.
- The HIDP control-channel replies and the battery report are not part of this model.
