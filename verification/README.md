# Veshell: verified models of the compositor's state machines

Veshell is a Wayland compositor. This project models the parts of it that decide something on
their own, away from devices and libraries, and proves what they promise over every input, every
run and every interleaving. Each file opens with the source file it follows. State that the source
updates in place is a class whose methods are proved against functions on a value of the same
state; the theorems are about those functions and about runs of them.

- `SuperKeyForwarding.dfy`, `SuperKeyRuns.dfy`: the transducer that withholds, replays, consumes
  or forwards key events around shell shortcuts, and what a client sees over a whole run of it, with
  the shell's verdicts lagging behind the keys and hotkeys swallowing events in between: exactly
  when a key is left held, no repeated presses, both or neither event of an ordinary key.
- `KeyRouting.dfy`: where a key event goes (hotkey, game, Flutter and from there the client), with
  locking, gaming mode and captures coming in at any time.
- `LockState.dfy`, `LockProtocol.dfy`, `LockTheorems.dfy`: the session lock. The compositor's loop,
  the PAM worker threads, logind and the shell are one transition system; every statement holds for
  every interleaving of callbacks and worker steps.
- `LockProgress.dfy`: the lock by effect: what starts, ends, is told, counted and released, on which
  occasions and no other, in every reachable world.
- `Converse.dfy`: the PAM conversation callback and the ownership of the replies it allocates.
- `Idle.dfy`, `IdleRuns.dfy`, `IdleProgress.dfy`: the screensaver with its four timers, and the panel
  brightness: what never happens, and what always does.
- `Pixels.dfy`, `Desktop.dfy`, `DesktopPlacement.dfy`, `WindowCapture.dfy`: captures, from logical rectangles and rounding
  down to the bytes: desktop areas, windows as layers, recording frames and rotated read-backs.
- `TexturePool.dfy`, `TextureHistory.dfy`: who owns a texture while stores are requested, presented,
  held and collected, and which one is on screen.
- `PointerConfinement.dfy`, `TaskRunner.dfy`, `RecordingWorker.dfy`, `EnvironmentVariables.dfy`:
  smaller cores with loops of their own.

How the model reads the source:

- Runs are the datatypes named `Run`, `History` or `LoopRun`: a start followed by steps, newest
  last. A theorem about a valid run is a theorem about every reachable state.
- What the host, the network, the clock or a library decides is a parameter: the shell's verdicts,
  whether a thread starts or a timer is accepted (`Luck`, `Host`), the pipeline's reactions, clock
  readings, the order a hash container is drained in. Nothing is assumed of them unless a `requires` says so.
- `ghost` fields and the fields described as bookkeeping (`born`, `lockedAt`, `typedIn`, `reader`,
  tickets, `armings`, `sends`) only record what happened; no transition decides on them.
- Logical geometry, alpha and brightness are `real`; pointer positions are on a uniform grid.
  Integers are unbounded except where the source's width matters: 32-bit placements saturate, and
  the one 32-bit sum that can overflow wraps.
- Methods named `...Row`, `Paint...`, `Begin...` and the like are loops and groups of assignments of
  one source function, cut out so that each is proved on its own.

Where the code falls short of what it or its documentation promises, the code is modelled as it is,
the failing case is exhibited and the exact condition is proved:

- **A lock can be left without a password prompt, or without its fingerprint reader.**
  docs/specifications/lock_screen.md (line 64) has the password stack run always. When the host has
  no thread for a PAM worker, src/embedder/lock/pam.rs:162-176 only logs it, so the loop waits for a
  transaction that does not exist: `StillbornCanHappen` and `ReaderStillbornCanHappen` exhibit it,
  `PasswordMeansWorkerExactly` and `FingerprintMeansWorkerExactly` say exactly when, and
  `StillbornIsStuck` and `ReaderStillbornIsStuck` that nothing but the end of that lock repairs it.
- **A key typed at the lock screen can reach a client.** The same document (line 42) excludes it.
  The lock is consulted when Flutter's verdict arrives, which may be after the unlock:
  `LateVerdictReachesClient` for every ordinary key, `VerdictReachesExactly` for the exact condition.
- **A window can leave gaming mode with a key still down on the client.**
  docs/specifications/gaming_mode.md (line 74) excludes it. Only the hotkey replays the releases;
  every other way out forgets the keys (src/embedder/meta_window_state/meta_window.rs:485-489,
  1317-1323). `GameKeysAreExact` says exactly when the set is what the route has down,
  `GameKeyLeftDown` exhibits a client left with a key that is physically up, and
  `VerdictReachesExactly` says when Flutter's verdict on the later release still rescues it.
- **A hotkey can swallow the release of a key the client holds.** Ctrl+Escape, the VT switches and
  the exit chord are taken in either state, and a capture takes every release but tells Flutter only
  of the keys Flutter was told of (src/embedder/keyboard/mod.rs:504-567). `HeldWhileUpExactly` says
  when a client that has heard every verdict holds a key that is up: exactly when the key was left
  with it, a release of it swallowed before or after its press was sent and none sent since.
  `PairedKeyIsNotLeft` is the guard that rules it out: no release of that key is swallowed untold
  while it is in `flutter_sent_keys`. `GameHoldsUpKeyExactly` is the same for a game and the
  game-mode key set. `EscapeReleaseIsLost`, `EscapeLostBeforeVerdict` (the press is still being
  judged) and `CaptureLosesGameRelease` exhibit it, `ReleaseLostBeforeVerdict` also the harmless
  case, a press the shell handles, and `HandledSequenceKeepsLeftKey` a key that even a later judged
  release does not free.
- **A selection within one output pixel can capture black.** `SubPixelSelectionIsBlack` exhibits it;
  by `AreaInsideOneOutput` the picture is black if and only if along some axis both ends of the
  selection round to the same pixel edge of the output, and by `WideSelectionIsShown` a selection
  one output pixel long in both directions is safe.

One more condition is stated for completeness: the pointer confinement assumes outputs with an area.
Whether a backend ever reports one without is not modelled; `AlwaysOnSomeOutputExactly` says what
would follow, and `EmptyOutputAttracts` gives an instance.

## Model

| member | source | states |
|---|---|---|
| SuperKeyForwarding.SuperKeyForwarding.Resolve | src/embedder/keyboard/mod.rs:40-137 | every branch of one call: new `pending`, `consumed`, `forwarded` and the exact batch sent to the client, for any verdict and any held keys |
| SuperKeyForwarding.SuperKeyForwarding.ReplayableModifiers | src/embedder/keyboard/mod.rs:102-122 | the replay list is the consumed modifiers still physically held, each once, oldest first |
| SuperKeyForwarding.SuperKeyForwarding.ConsumePending | src/embedder/keyboard/mod.rs:162-173 | draining `pending` leaves each key in `consumed` by its last pending event |
| SuperKeyForwarding.SuperKeyForwarding.TrackAll | src/embedder/keyboard/mod.rs:175-184 | `forwarded` after a batch is the key state the batch leaves |
| SuperKeyForwarding.SortByTimeKeeps | src/embedder/keyboard/mod.rs:106-112 | the sort by timestamp is ordered and keeps exactly the same events |
| SuperKeyRuns.ForwardedIsClientState | src/embedder/keyboard/mod.rs:40-184 | over any run, with no assumption on events, their fates, verdicts or held sets, `forwarded` is exactly the keys whose last emitted event was a press |
| SuperKeyRuns.KeyIsInOnePlace | src/embedder/keyboard/mod.rs:40-173 | a key none of whose releases is lost is in one of `pending`, `consumed` and `forwarded` at most, once, and only while down |
| SuperKeyRuns.CollectionsAreSeparated | src/embedder/keyboard/mod.rs:40-173 | when no release is lost the three collections are disjoint and hold only keys that are down, however late the verdicts |
| SuperKeyRuns.PendingIsSuperHeaded | src/embedder/keyboard/mod.rs:88-136 | `pending` is always a Super press followed by modifier presses |
| SuperKeyRuns.QueueIsInOrder | src/embedder/keyboard/mod.rs:261-333 | the outstanding events are those typed since, in order, and lead to the keys that are down and those Flutter takes for held |
| SuperKeyRuns.HeldWhileUpExactly | src/embedder/keyboard/mod.rs:31-184 | with every verdict in, the client holds a key that is up if and only if the key was left with it by a swallowed release |
| SuperKeyRuns.PairedKeyIsNotLeft | src/embedder/keyboard/mod.rs:504-567 | a key is never left unless a release of its own was swallowed untold while Flutter took it for held |
| SuperKeyRuns.NoStuckKeys | src/embedder/keyboard/mod.rs:31-184 | with all keys up and every verdict in, the client holds exactly the keys left with it; with no release lost nothing is held, withheld or remembered |
| SuperKeyRuns.ReleaseLostBeforeVerdict | src/embedder/keyboard/mod.rs:552-567 | a release swallowed before the verdict on its press sticks the key exactly when the press is then not handled |
| SuperKeyRuns.HandledSequenceKeepsLeftKey | src/embedder/keyboard/mod.rs:46-64 | a run in which a key left with the client stays there though its last release was judged |
| SuperKeyRuns.SwallowedReleaseSticks | src/embedder/keyboard/mod.rs:552-567 | a run in which a swallowed release leaves the client holding a key that is up |
| SuperKeyRuns.HeldKeyIsReleased | src/embedder/keyboard/mod.rs:46-86 | the release of a key the client holds and was not left with is always sent, whatever the shell says and whatever was withheld or swallowed since |
| SuperKeyRuns.NoPressIsRepeated | src/embedder/keyboard/mod.rs:40-137 | no press is emitted for a key the client already holds, if none of that key's releases is lost |
| SuperKeyRuns.BatchShape | src/embedder/keyboard/mod.rs:46-136 | an emitted batch is nothing, the withheld presses or consumed modifiers, then the event; the client's keys follow |
| SuperKeyRuns.BothOrNeither | src/embedder/keyboard/mod.rs:46-136 | the client sees of an ordinary key that is not kept from the shell exactly the presses the shell left unhandled, each with its release, in typed order, whatever is swallowed of other keys |
| SuperKeyRuns.OrdinaryKeyInvariant | src/embedder/keyboard/mod.rs:46-136 | an ordinary key that is down is with the client or with the shell, never withheld |
| SuperKeyRuns.PendingIsLatestTyped | src/embedder/keyboard/mod.rs:96-136 | `pending` is the latest unbroken stretch of judged events |
| SuperKeyRuns.FlushReplaysTyping | src/embedder/keyboard/mod.rs:46-136 | a flushed batch is the withheld presses as typed, then the event that settled them |
| SuperKeyRuns.ReplayIsExact | src/embedder/keyboard/mod.rs:102-122 | before an unhandled ordinary press come exactly the consumed modifiers that are held, each once, oldest first; one that is up is never sent |
| SuperKeyRuns.HeldModifiersComeBack | src/embedder/keyboard/mod.rs:102-122 | over runs, a consumed modifier is with the client after such a press if and only if it was before or is still held |
| SuperKeyRuns.FlushGivesNothingBack | src/embedder/keyboard/mod.rs:96-136 | a flush of withheld presses sends no consumed modifier |
| SuperKeyRuns.SuperTap | src/embedder/keyboard/mod.rs:692-757 | a tap of Super is silent when the shell handles it and sends both events when it does not |
| SuperKeyRuns.SuperChord | src/embedder/keyboard/mod.rs:702-745 | a chord under Super sends nothing when handled, Super and then the letter when not |
| SuperKeyRuns.ModifierPress | src/embedder/keyboard/mod.rs:88-136 | when a modifier press is sent, withheld or consumed |
| SuperKeyRuns.ConsumedReleases | src/embedder/keyboard/mod.rs:66-86 | after a handled chord the release of a modifier is sent and that of the letter withheld |
| KeyRouting.KeyRouter.HandleKeyboardEvent | src/embedder/keyboard/mod.rs:261-333 | a typed key goes to a hotkey, the game or Flutter, with the sets of held keys updated for that route only |
| KeyRouting.KeyRouter.HandleEmbedderHotkeys | src/embedder/keyboard/mod.rs:442-571 | which events the compositor swallows in each mode, and what that changes |
| KeyRouting.KeyRouter.PostFlutterHandleKeyEvent | src/embedder/keyboard/mod.rs:573-628 | what a verdict of Flutter sends to the client, or that it clears the forwarding |
| KeyRouting.KeyRouter.ReleaseGameModeForwardedKeys | src/embedder/keyboard/mod.rs:399-415 | one release for each of the game's keys, and the set is empty |
| KeyRouting.KeyRouter.ReleaseKeysOfFlutter | src/embedder/keyboard/mod.rs:422-440 | one release to Flutter for each key it was sent, and the set is empty |
| KeyRouting.KeyRouter.TakeKeyboard | src/embedder/lock/mod.rs:186-204 | what locking does to the keys |
| KeyRouting.KeyRouter.ReturnKeyboard | src/embedder/lock/mod.rs:245-249 | unlocking over a game releases what Flutter believes held |
| KeyRouting.KeyRouter.EnterGaming | src/embedder/meta_window_state/meta_window.rs:1262-1266 | entering gaming mode releases what Flutter believes held |
| KeyRouting.KeysGoExactly | src/embedder/keyboard/mod.rs:261-333 | in every run, where a typed event goes and which mode it changes: game, shell, replayed releases, capture, recording |
| KeyRouting.RecordingStaysLive | src/embedder/keyboard/mod.rs:492-497 | while recording every key but a brightness press reaches the game or the shell |
| KeyRouting.GameKeysAreExact | src/embedder/keyboard/mod.rs:261-333 | the game-mode set is exactly what that route has down on the client, if and only if no key was left down when a window left gaming mode; it is empty while locked |
| KeyRouting.GameKeysAreAccounted | src/embedder/keyboard/mod.rs:261-333 | a key is down on that route exactly when it is remembered or was left down, and never both |
| KeyRouting.NoneLeftDown | src/embedder/meta_window_state/meta_window.rs:1312-1327 | runs that leave gaming mode only with no key remembered leave none down |
| KeyRouting.GameKeyLeftDown | src/embedder/meta_window_state/meta_window.rs:1312-1327 | for every key, a run that ends with the key up and the client holding it |
| KeyRouting.FlutterKeysAreExact | src/embedder/keyboard/mod.rs:422-440 | in every run `flutter_sent_keys` is exactly the keys Flutter believes held |
| KeyRouting.LockedSessionIsSilent | src/embedder/keyboard/mod.rs:573-628 | from locking to unlocking no client is handed any key event |
| KeyRouting.PressNeedsUnlockedSession | src/embedder/keyboard/mod.rs:261-333 | a press reaches a client only from an unlocked session, by the game's route or by a verdict |
| KeyRouting.LockingReleasesTheGame | src/embedder/lock/mod.rs:186-204 | locking hands out releases only, one for each key remembered, ends a capture and clears the forwarding; then the route has down exactly what was left down before |
| KeyRouting.VerdictReachesExactly | src/embedder/keyboard/mod.rs:573-628 | at any point of any run, what the client hears of a verdict: an ordinary press exactly when unlocked, no shell text field, no repeat and unhandled; a release exactly when the first three hold and it is not withheld |
| KeyRouting.GameHoldsUpKeyExactly | src/embedder/keyboard/mod.rs:504-567 | the game has a key down that is up if and only if its release was swallowed there or the key was left down by leaving the mode |
| KeyRouting.FlutterHoldsUpKeyExactly | src/embedder/keyboard/mod.rs:504-567 | Flutter takes a key for held that is up if and only if its release was swallowed untold |
| KeyRouting.EscapeLostBeforeVerdict | src/embedder/keyboard/mod.rs:552-567 | for every ordinary key, a run in which its release is swallowed before its verdict and the client is left holding it |
| KeyRouting.CaptureLosesGameRelease | src/embedder/keyboard/mod.rs:504-523 | for every key, a run in which a capture swallows its release and the game is left holding it |
| KeyRouting.EscapeReleaseIsLost | src/embedder/keyboard/mod.rs:552-567 | for every ordinary key, a run in which its release is swallowed while the client and Flutter hold it |
| KeyRouting.LateVerdictReachesClient | src/embedder/keyboard/mod.rs:573-628 | for every ordinary key, a run in which it is typed while locked and still reaches the client |
| LockState.LockState.Engage | src/embedder/lock/mod.rs:186-223 | the whole state after `lock`, with and without authentication |
| LockState.LockState.Release | src/embedder/lock/mod.rs:227-261 | the whole state after `unlock` |
| LockState.LockState.BeginPassword | src/embedder/lock/mod.rs:263-273 | a new password worker, the old responder dropped, no prompt on show |
| LockState.LockState.BeginFingerprint | src/embedder/lock/mod.rs:275-300 | a fingerprint worker starts only within the budget, alone, and with a service installed |
| LockState.LockState.Respond | src/embedder/lock/mod.rs:326-344 | where a typed answer goes: to the waiting prompt, to the queue, and whether a transaction starts |
| LockState.LockState.OnShown | src/embedder/lock/mod.rs:347-356 | a drawn lock screen schedules the pending release |
| LockState.LockState.OnReleaseTimer | src/embedder/lock/mod.rs:369-374 | the timer releases the inhibitor and forgets itself |
| LockState.LockState.ReleaseAfter | src/embedder/lock/mod.rs:362-390 | the release timer replaces the earlier one, or the inhibitor is released at once |
| LockState.LockState.OnDbusEvent | src/embedder/lock/mod.rs:402-433 | what each logind signal does |
| LockState.LockState.OnResume | src/embedder/lock/mod.rs:440-454 | resuming cancels the release and opens fresh transactions |
| LockState.LockState.OnAuthMessage | src/embedder/lock/mod.rs:456-542 | what each worker message does; a stale one does nothing |
| LockState.LockState.ReplayToShell | src/embedder/lock/mod.rs:586-598 | a restarted shell is told the lock, the waiting prompt and the last reader message, and nothing else changes |
| LockProtocol.ReachableInv | src/embedder/lock/mod.rs:186-542 | the protocol invariant (channel, counts, ages, current workers, pairing, budget, timers, answers) holds in every reachable world |
| LockProtocol.CallbackKeepsInv | src/embedder/lock/mod.rs:186-542 | every callback of the loop, in any world satisfying the invariant, keeps it |
| LockProtocol.WorkKeepsInv | src/embedder/lock/pam.rs:148-177 | every step of every worker thread, at any moment, keeps it |
| LockProtocol.HandleMeets | src/embedder/lock/mod.rs:186-542 | one contract for all callbacks: when generations change, which workers may start or be dropped, where answers go, how timers move |
| LockProtocol.AnsweredIsWaiting | src/embedder/lock/mod.rs:326-344 | an answer is handed only to a worker blocked on its latest prompt |
| LockTheorems.UnlockIsAuthorised | src/embedder/lock/mod.rs:227-261 | a locked session is unlocked if and only if logind says so or an accepted success is delivered, of a worker spawned since this very lock began |
| LockProgress.LockedExactly | src/embedder/lock/mod.rs:186-261 | the session is locked exactly when the last that locked it (a request, logind, a suspend) came after the last that unlocked it |
| LockProgress.TransactionsStartExactly | src/embedder/lock/mod.rs:263-542 | in every reachable world, the occasions on which a transaction of either kind starts, and no other |
| LockProgress.TransactionsEndExactly | src/embedder/lock/mod.rs:326-542 | when a responder is dropped, an answer kept or discarded, and what is known of the reader |
| LockProgress.PromptedIsHeard | src/embedder/lock/mod.rs:456-503 | `password_prompted` means exactly that the current worker was heard prompting |
| LockProgress.ShellIsToldExactly | src/embedder/lock/mod.rs:456-598 | in every reachable world, everything the shell is told, word for word |
| LockProgress.InhibitorGoesExactly | src/embedder/lock/mod.rs:347-433 | in every reachable world, when the inhibitor is released or its timer armed, and with which delay |
| LockProgress.MemoryIsExact | src/embedder/lock/mod.rs:186-542 | whether the lock screen is drawn, a suspend waits, how often the reader failed and what it last said are what the history says |
| LockTheorems.LockedAtIsExact | src/embedder/lock/mod.rs:186-192 | the recorded time of locking is the step that locked the session, which has been locked since |
| LockTheorems.BornIsExact | src/embedder/lock/pam.rs:148-177 | the recorded birth of a worker is the step that spawned it |
| LockTheorems.UnlockedIsClean | src/embedder/lock/mod.rs:227-261 | an unlocked session has no responder, prompt, queued answer, running reader or worker that could still count |
| LockTheorems.PasswordMeansWorkerExactly | src/embedder/lock/pam.rs:162-176 | `password.is_some()` means exactly one unfinished current password worker, if and only if the host had a thread for it |
| LockTheorems.FingerprintMeansWorkerExactly | src/embedder/lock/mod.rs:275-293 | `fingerprint_running` means exactly one unfinished current fingerprint worker, if and only if the host had a thread for it |
| LockTheorems.ReaderStillbornCanHappen | src/embedder/lock/pam.rs:162-176 | a run that leaves the loop waiting for a fingerprint worker that does not exist |
| LockTheorems.ReaderStillbornIsStuck | src/embedder/lock/mod.rs:275-300 | such a lock starts no other fingerprint transaction until it ends |
| LockTheorems.StillbornMeansRefused | src/embedder/lock/pam.rs:162-176 | a worker is without a thread exactly when the host refused one at its spawn |
| LockTheorems.StillbornCanHappen | src/embedder/lock/pam.rs:162-176 | a run that leaves the loop waiting for a worker that does not exist |
| LockTheorems.StillbornIsStuck | src/embedder/lock/mod.rs:326-344 | such a lock shows no password prompt until it ends, whatever is typed, resumed or failed meanwhile |
| LockTheorems.AnswersAreGivenOnce | src/embedder/lock/mod.rs:326-344 | each typed answer reaches at most one prompt, in its own generation, and a worker never gets more answers than prompts heard from it |
| LockTheorems.AnswerMeetsItsPrompt | src/embedder/lock/mod.rs:326-344 | at the moment an answer is sent its worker is running and blocked on the prompt it answers |
| LockTheorems.PromptShownExactly | src/embedder/lock/mod.rs:456-503 | a prompt is on show exactly while the current worker was heard asking and not answered |
| LockTheorems.PasswordStartsAreCaused | src/embedder/lock/mod.rs:456-503 | in one lock, at most one password start for the lock and one for each resume, typed answer and prompt: no restart loop |
| LockTheorems.FingerprintBudget | src/embedder/lock/mod.rs:481-539 | at most three failed fingerprint transactions, and three more for each failed password |
| LockTheorems.ReaderlessStaysQuiet | src/embedder/lock/mod.rs:298-300 | once no reader was found, no fingerprint transaction starts in any later lock |
| LockTheorems.ReleasesServeTheirSuspend | src/embedder/lock/mod.rs:347-454 | at most one inhibitor release for each announced suspend, none after its resume or unlock |
| LockTheorems.ReleaseTimerIsTracked | src/embedder/lock/mod.rs:362-390 | a pending suspend has an armed timer, an armed timer means locked, no other timer is live, and a suspend is unreleased exactly while its timer is armed |
| LockTheorems.EveryoneKnowsTheLock | src/embedder/lock/mod.rs:566-598 | a shell up since it last reported ready takes the session for locked exactly when it is, any other never wrongly for locked; a logind that is connected publishes the lock |
| LockTheorems.TypingFindsATransaction | src/embedder/lock/mod.rs:326-344 | an answer typed while locked goes to the waiting worker, or is kept for the transaction under way or just started; somebody works on that one if and only if the host had a thread for it |
| LockTheorems.PromptIsAnsweredOrShown | src/embedder/lock/mod.rs:456-480 | a prompt of the current worker is answered with the kept answer, or put on show word for word |
| LockTheorems.ResumedLockAuthenticates | src/embedder/lock/mod.rs:440-454 | a locked session that resumes has a password transaction, a new one only if it had none, with a worker if and only if the host had a thread for it |
| Converse.SecretToC | src/embedder/lock/pam.rs:284-302 | the copy is the answer and a terminator, or none for an interior NUL or no memory; the buffer of the secret is all zeros afterwards either way |
| Converse.Wipe | src/embedder/lock/pam.rs:304-309 | every byte of a buffer is zero |
| Converse.FreeResponses | src/embedder/lock/pam.rs:311-323 | every reply and the array are wiped and freed exactly once, and nothing else is |
| Converse.Gather | src/embedder/lock/pam.rs:233-277 | the message loop: each reply in its own message's slot, the status is that of the first refusal |
| Converse.Converse | src/embedder/lock/pam.rs:218-281 | PAM receives every answer in its own slot, or everything allocated is freed exactly once; the loop is told the messages in order |
| Converse.StatusIsFirstRefusal | src/embedder/lock/pam.rs:233-277 | the status is the code of the first message that ends the conversation, and success when none does |
| Converse.ConversationSucceedsExactly | src/embedder/lock/pam.rs:233-281 | a conversation succeeds exactly when every style is known and every prompt is answered without a NUL and with memory |
| Converse.ToldInWords | src/embedder/lock/pam.rs:233-277 | what the loop is told of each message: prompts with their echo flag and text, errors and notices |
| Converse.RepliesInWords | src/embedder/lock/pam.rs:233-281 | each prompt has the answer typed for it and no other message has a reply |
| Brightness.Brightness.Apply | src/embedder/brightness/mod.rs:119-143 | one raw value for each device, from the current target |
| Brightness.Brightness.Adjust | src/embedder/brightness/mod.rs:94-97 | the user level moves within its range and the panel follows |
| Brightness.ChangesStayFaithful | src/embedder/brightness/mod.rs:94-117 | after every adjustment and fade the last write shows the current target |
| Brightness.PanelLevels | src/embedder/brightness/mod.rs:119-154 | off exactly when blanked, otherwise at least one step and never above the user's own level |
| Brightness.FadeNeverBrightens | src/embedder/brightness/mod.rs:148-154 | a fade stays between the user's level and the dim floor |
| Brightness.FadeIsEven | src/embedder/brightness/mod.rs:148-154 | half the way of a fade is half the change |
| Brightness.ValueIsNearest | src/embedder/brightness/mod.rs:119-143 | the value written is the nearest step, and never off while awake |
| IdleMachine.IdleState.CancelAllTimers | src/embedder/idle/mod.rs:148-161 | all four tokens are forgotten and their sources removed |
| IdleMachine.IdleState.ArmActivityTimers | src/embedder/idle/mod.rs:166-211 | which timers are armed, from the settings, the session and the power worker |
| IdleMachine.IdleState.OnActivity | src/embedder/idle/mod.rs:268-288 | activity wakes, and rearms unless inhibited |
| IdleMachine.IdleState.RefreshIdleInhibit | src/embedder/idle/mod.rs:302-325 | recomputing the inhibition arms, wakes or cancels |
| IdleMachine.IdleState.ApplyIdleSettings | src/embedder/idle/mod.rs:328-342 | new settings rearm only from the active stage |
| IdleMachine.IdleState.OnSessionPaused | src/embedder/idle/mod.rs:235-243 | leaving the VT resets the stage |
| IdleMachine.IdleState.OnSessionActivated | src/embedder/idle/mod.rs:245-250 | coming back is activity |
| IdleMachine.IdleState.OnPrepareForSleep | src/embedder/idle/mod.rs:257-264 | suspend cancels the timers and wakes the panel; resume is activity |
| IdleMachine.IdleState.OnDimFired | src/embedder/idle/mod.rs:345-361 | the dim timer starts the fade and ticks it once |
| IdleMachine.IdleState.OnFadeTick | src/embedder/idle/mod.rs:363-384 | one tick of the fade, and its end |
| IdleMachine.IdleState.OnBlankFired | src/embedder/idle/mod.rs:388-403 | blanking, or dimming for good where the backend cannot blank |
| IdleMachine.IdleState.OnPowerFired | src/embedder/idle/mod.rs:405-418 | the power action is sent once, in an active uninhibited session |
| IdleRuns.StepKeepsInv | src/embedder/idle/mod.rs:148-418 | every event keeps the invariant on timers, stages and power actions |
| IdleRuns.ReachableInv | src/embedder/idle/mod.rs:148-418 | the invariant holds after any sequence of events |
| IdleRuns.NoOrphanTimers | src/embedder/idle/mod.rs:148-226 | the live timers are exactly the stored tokens |
| IdleRuns.TimersRunForTheSettings | src/embedder/idle/mod.rs:166-211 | while active each live timer has the timeout the current settings give its kind, and none runs for a timeout of zero |
| IdleRuns.PausedOrInhibitedIsAwake | src/embedder/idle/mod.rs:235-326 | a paused session or an inhibitor means the active stage and no live timer |
| IdleRuns.StagesAreFaithful | src/embedder/idle/mod.rs:345-403 | a fade timer means fading; blank means a backend that can blank, full alpha and no visual timer; dimmed and active have their alpha |
| IdleRuns.ActiveShowsUserLevel | src/embedder/brightness/mod.rs:94-154 | while active every written panel shows the user's level; a panel is off exactly when blanked |
| IdleRuns.PowerOncePerArming | src/embedder/idle/mod.rs:405-418 | at most one power action for each arming of the timers |
| IdleRuns.PowerNeedsIdleness | src/embedder/idle/mod.rs:405-418 | a power action comes only from its own timer in an active, uninhibited session with a worker |
| IdleProgress.ActivityRestartsCountdown | src/embedder/idle/mod.rs:268-288 | activity in an active session lights the screen and, unless inhibited, begins the whole countdown with fresh timers and no other |
| IdleProgress.StartupCountsDown | src/embedder/state.rs:672-673 | the countdown begins with the machine |
| IdleProgress.SettingsRestartCountdown | src/embedder/idle/mod.rs:328-342 | new settings count down anew, for the new timeouts, while the screen is active |
| IdleProgress.InhibitionRulesCountdown | src/embedder/idle/mod.rs:302-325 | an inhibitor lights the screen and stops every timer; when the last goes the countdown begins |
| IdleProgress.DimTimerFades | src/embedder/idle/mod.rs:345-384 | the dim timer begins a fade that has come as far as the clock |
| IdleProgress.FadeFollowsClock | src/embedder/idle/mod.rs:363-384 | each tick shows the share of the fade that is over, and the last one dims |
| IdleProgress.BlankTimerBlanks | src/embedder/idle/mod.rs:388-403 | the blank timer blanks, or dims for good where the backend cannot, with the panel off |
| IdleProgress.PowerTimerSends | src/embedder/idle/mod.rs:405-418 | a power timer that fires always sends the action, once |
| IdleProgress.InputsAreExact | src/embedder/idle/mod.rs:235-342 | the session, inhibitors, captures, settings and surfaces the machine acts on are exactly those it was told |
| IdleProgress.SleepStopsCountdown | src/embedder/idle/mod.rs:257-264 | on the way into suspend every timer goes and the panel is lit |
| IdleProgress.PanelIsWritten | src/embedder/brightness/mod.rs:94-143 | from the first change on, the panel has always been written what it should show |
| Pixels.CopyPixel | src/embedder/capture/mod.rs:1205-1211 | one pixel changes and no other |
| Pixels.BlackImage | src/embedder/capture/mod.rs:941-945 | an opaque black picture of the size |
| Pixels.SamePixelsSameBytes | src/embedder/capture/mod.rs:1131-1141 | pictures with the same pixels are the same bytes |
| Blit.BlitScaled | src/embedder/capture/mod.rs:1170-1215 | refused exactly when a non-empty region leaves its image; otherwise each destination pixel is its nearest source pixel and no other changes |
| Blit.BlitClipped | src/embedder/capture/mod.rs:1046-1081 | exactly the cells inside the region, the target and the source are copied one to one, no access leaves a buffer |
| Blit.NearestExactly | src/embedder/capture/mod.rs:1199-1204 | the source cell is the one whose share of the axis begins at or before the destination cell |
| Geometry.PixelCountExactly | src/embedder/capture/mod.rs:1108-1129 | a length covers exactly the pixels it takes to hold all but noise of it |
| Geometry.RoundWithinCeil | src/embedder/capture/mod.rs:1108-1168 | rounding never passes the tolerant ceiling, for every tolerance below one half |
| Geometry.PixelLenNeverOverflows | src/embedder/capture/mod.rs:1131-1141 | an accepted size always has a representable length |
| DesktopCapture.PartsAreInside | src/embedder/capture/mod.rs:936-977 | in exact arithmetic no output's rectangles leave the picture or the output's image |
| DesktopCapture.ComposeDesktopArea | src/embedder/capture/mod.rs:936-977 | fails exactly when the size is refused; each pixel is that of the last output covering it, else black |
| DesktopPlacement.ContributesExactly | src/embedder/capture/mod.rs:936-977 | an output has a pixel for (x, y) exactly between the rounded ends of its overlap with the area, widened to the end of the picture |
| DesktopPlacement.PictureShowsLast | src/embedder/capture/mod.rs:936-977 | for any outputs and overlaps, a pixel shows the last output that has one for it, at the column and row its overlap gives |
| DesktopPlacement.PictureIsBlackBetween | src/embedder/capture/mod.rs:936-977 | and black where no output has one |
| DesktopPlacement.AlignedPictureIsDesktop | src/embedder/capture/mod.rs:936-977 | on the pixel grid every pixel is that of the output at the same desktop position, one to one, each abutting output on its own side |
| DesktopPlacement.AlignedGapsAreBlack | src/embedder/capture/mod.rs:2081-2092 | between aligned outputs the picture is black |
| DesktopCapture.AreaInsideOneOutput | src/embedder/capture/mod.rs:936-977 | an area inside one output shows the nearest source pixel everywhere, with no rim, unless along some axis both its ends round to the same pixel edge; then it is all black |
| DesktopCapture.EmptySourceExactly | src/embedder/capture/mod.rs:1143-1168 | no output pixel is selected if and only if along some axis both ends round to the same edge |
| DesktopCapture.WideSelectionIsShown | src/embedder/capture/mod.rs:1143-1168 | a selection one output pixel long in both directions has a non-empty source rectangle |
| DesktopCapture.SubPixelSelectionIsBlack | src/embedder/capture/mod.rs:936-977 | a white output of which a one-pixel selection is captured as black |
| DesktopCapture.WholeOutputIsCopied | src/embedder/capture/mod.rs:936-977 | a whole output at its exact scale has its pixel size and its pixels |
| DesktopCapture.CaptureFullOutput | src/embedder/capture/mod.rs:627-640 | the capture of a whole output is its snapshot, byte for byte |
| DesktopCapture.EvenSize | src/embedder/capture/mod.rs:1576-1578 | the nearest even sizes below |
| DesktopCapture.CropToSize | src/embedder/capture/mod.rs:1582-1600 | the top-left corner, pixel for pixel |
| DesktopCapture.ComposeRecordingFrame | src/embedder/capture/mod.rs:1552-1574 | an even frame showing the composed area, refused exactly when the size is or has changed |
| WindowCapture.StableOrder | src/embedder/capture/mod.rs:996-997 | the layers once each, by `order`, equals in their original order |
| WindowCapture.ComposeWindowPixels | src/embedder/capture/mod.rs:985-1027 | every pixel is that of the layer on top among all that cover it, else opaque black |
| WindowCapture.PaintingShowsTop | src/embedder/capture/mod.rs:985-1027 | painting in stable order refines the choice of the top layer |
| WindowCapture.SomeLayerIsOnTop | src/embedder/capture/mod.rs:985-1027 | wherever a layer covers a pixel one of them is on top, so the picture is determined |
| WindowCapture.ReachesExactly | src/embedder/capture/mod.rs:1046-1081 | a clipped copy reaches what its layer covers, if and only if the layer's end fits 32 bits or nothing of it is visible |
| WindowCapture.PictureIsGeometric | src/embedder/capture/mod.rs:985-1081 | for such layers the picture is decided by where they are: no overflow, saturation or clamp plays a part |
| WindowCapture.CaptureWindow | src/embedder/capture/mod.rs:553-625 | the capture shows at every pixel the uppermost of all layers that lie over it, else black |
| WindowCapture.AlignedLayerIsCopied | src/embedder/capture/mod.rs:1002-1016 | a layer rendered at the viewport's scale from a whole pixel is in the picture one to one, its top left at its origin |
| WindowCapture.ExtentExactly | src/embedder/capture/mod.rs:1005-1008 | how many pixels of the viewport a layer of another scale takes |
| Orientation.MovedIsABijection | src/embedder/capture/mod.rs:1288-1332 | for all eight transforms and all sizes, the pixel map is a bijection undone by the inverse transform |
| Orientation.OrientPixels | src/embedder/capture/mod.rs:1288-1332 | refused exactly for a buffer of the wrong length; otherwise every pixel is where the transform puts it |
| Orientation.OrientedCovers | src/embedder/capture/mod.rs:1288-1332 | every target pixel comes from one source pixel |
| Orientation.OrientThenInvert | src/embedder/capture/mod.rs:1288-1332 | a transform and then its inverse restore the buffer, byte for byte |
| Orientation.NormalIsIdentity | src/embedder/capture/mod.rs:1288-1332 | the early return agrees with the pixel loop |
| Orientation.TransformsCompose | src/embedder/capture/mod.rs:1288-1332 | half and three-quarter turns are quarter turns repeated, and the flipped transforms are rotations followed by the mirror |
| Orientation.QuarterTurnIsClockwise | src/embedder/capture/mod.rs:1961-1975 | a quarter turn makes the left column, from the bottom, the top row; the mirror swaps left and right |
| TexturePool.TextureSwapchain.Acquire | src/embedder/flutter_engine/view.rs:112-122 | pops idle textures from the end until one fits, else takes the created one |
| TexturePool.TextureSwapchain.Resize | src/embedder/flutter_engine/view.rs:130-138 | a new size drops the idle textures |
| TexturePool.VeshellView.AcquireBackingStore | src/embedder/flutter_engine/view.rs:174-207 | a store under a fresh generation, or none when the backend has no texture |
| TexturePool.VeshellView.PresentBackingStore | src/embedder/flutter_engine/view.rs:209-229 | a store that is out is shown and its predecessor recycled; any other id is refused |
| TexturePool.VeshellView.DiscardBackingStore | src/embedder/flutter_engine/view.rs:231-255 | a store that is out goes back to the pool; any other id changes nothing |
| TexturePool.VeshellView.ResizeView | src/embedder/flutter_engine/view.rs:476-489 | a new size drops the idle textures and the one on screen |
| TexturePool.VeshellView.OnBufferRequest | src/embedder/flutter_engine/compositor.rs:60-90 | a store whose reply cannot be delivered is discarded |
| TexturePool.VeshellView.OnPresented | src/embedder/flutter_engine/compositor.rs:95-136 | a presented store is shown, or held while a capture freezes the desktop |
| TexturePool.TexturesHaveOneOwner | src/embedder/flutter_engine/view.rs:103-255 | in every run idle, in-flight and shown textures are disjoint and idle ones have the current size |
| TexturePool.ShownIsNeverHandedOut | src/embedder/flutter_engine/view.rs:174-207 | the texture on screen or in flight is never handed out again |
| TexturePool.PoolIsBounded | src/embedder/flutter_engine/view.rs:103-255 | never more textures than the peak in flight plus one |
| TexturePool.ShownAtMostOnce | src/embedder/flutter_engine/view.rs:209-229 | each store is shown at most once, however often it is reported |
| TextureHistory.OutIsExact | src/embedder/flutter_engine/view.rs:174-255 | the stores that are out are exactly those handed out and not presented or collected since, with their textures |
| TextureHistory.ShownIsLastPresented | src/embedder/flutter_engine/view.rs:209-229 | the texture on screen is exactly that of the last frame presented unfrozen while its store was out, since the last change of size |
| TextureHistory.FittingTexturesAreKept | src/embedder/flutter_engine/view.rs:103-255 | a texture of the view's size is never dropped |
| TextureHistory.ReturnedTexturesAreIdle | src/embedder/flutter_engine/view.rs:209-255 | the frame a new one replaces, and a store held or collected, is idle afterwards if it fits |
| TextureHistory.LastGenerationIsLastPresented | src/embedder/flutter_engine/view.rs:209-229 | the last presented generation is remembered |
| PointerConfinement.ConfineToOutputs | src/embedder/input_handling.rs:70-87 | a point on an output stays, otherwise the first nearest clamped point |
| PointerConfinement.ClampIsNearest | src/embedder/input_handling.rs:50-60 | clamping into an output with area lands on it, at its nearest point |
| PointerConfinement.ConfinedIsNearest | src/embedder/input_handling.rs:70-87 | for outputs with area the result is on one of them and no point of any is nearer |
| PointerConfinement.ConfinedTwice | src/embedder/input_handling.rs:70-87 | points on an output are fixed, and confining twice is confining once |
| PointerConfinement.AlwaysOnSomeOutputExactly | src/embedder/input_handling.rs:50-87 | the pointer always lands on an output if and only if there is one and every point an empty one attracts lies on another |
| PointerConfinement.EmptyOutputAttracts | src/embedder/input_handling.rs:50-87 | an empty output that takes the pointer off every output |
| TaskRunner.TaskRunner.Peek | src/embedder/flutter_engine/task_runner.rs:23-46 | the top of the heap is the one task that no other precedes: earliest target, then largest id |
| TaskRunner.TaskRunner.EnqueueTask | src/embedder/flutter_engine/task_runner.rs:57-63 | the task joins the queue, and the delay is the gap to the earliest target |
| TaskRunner.TaskRunner.ExecuteExpiredTasks | src/embedder/flutter_engine/task_runner.rs:65-85 | what ran left the queue and was due, in order; what is left was not due at the last reading; nothing is lost or run twice |
| TaskRunner.TaskRunner.RescheduleTimer | src/embedder/flutter_engine/task_runner.rs:87-103 | the gap to the earliest target, zero if overdue, a minute if there is none |
| TaskRunner.DelayReachesFirst | src/embedder/flutter_engine/task_runner.rs:87-103 | waiting for the delay, no task is late and one is due; a minute without tasks |
| TaskRunner.PopKeepsOrder | src/embedder/flutter_engine/task_runner.rs:65-85 | a popped task goes behind all popped before it, and queue and popped tasks together are conserved |
| RecordingWorker.Worker.TakeCommands | src/embedder/capture/recording.rs:459-512 | the command loop against a reference without state: which frame ends it and why, how many were queued and dropped |
| RecordingWorker.Worker.PlayOut | src/embedder/capture/recording.rs:535-556 | the first end of stream or error before the deadline |
| RecordingWorker.Worker.Run | src/embedder/capture/recording.rs:435-597 | exactly one result; a completion exactly when the user stopped, the stream ended and the rename succeeded, with all frames accounted for; which files are left |
| RecordingWorker.CompletesOnce | src/embedder/capture/recording.rs:459-512 | at most one command can be the stop that completes a recording |
| RecordingWorker.SurvivesExactly | src/embedder/capture/recording.rs:464-511 | which frames the worker survives, in words |
| RecordingWorker.DropsInARowExactly | src/embedder/capture/recording.rs:474-500 | a row of drops is a row of frames that met a full queue |
| RecordingWorker.DroppedIsCount | src/embedder/capture/recording.rs:474-500 | the drops are the frames that met a full queue |
| RecordingWorker.PlayedOutExactly | src/embedder/capture/recording.rs:535-556 | the playout ends with the first end of stream or error at whatever poll, and without one at the deadline |
| RecordingWorker.Worker.Fail | src/embedder/capture/recording.rs:251-281 | one failure is sent and no empty file stays |
| RecordingWorker.SessionHasItsWorker | src/embedder/capture/mod.rs:1807-1823 | a live session always has a worker that still owes its result, and a late result ends no other session |
| EnvironmentVariables.Process.ApplyEnvironmentVariables | src/embedder/state.rs:364-395 | the whole environment after a call, the names remembered, and the answer |
| EnvironmentVariables.Process.RestoreOrUnset | src/embedder/state.rs:402-421 | the built-in default, else unset |
| EnvironmentVariables.HistoryIsReconciled | src/embedder/state.rs:364-421 | after any history a name ever applied holds the last value, else its default, else nothing; every other name is as it began |
| EnvironmentVariables.SessionNamesAreNeverTouched | src/embedder/settings/mod.rs:286-291 | names derived from this session are never touched |
| EnvironmentVariables.NeverAccepted | src/embedder/settings/mod.rs:320-342 | malformed and session-derived names are never applied |
| EnvironmentVariables.ReapplyingIsSilent | src/embedder/state.rs:364-395 | applying the same settings again reports and changes nothing |
| EnvironmentVariables.SilentMeansUnchanged | src/embedder/state.rs:364-395 | a call that reports no change made none |
| EnvironmentVariables.EnvironmentInWords | src/embedder/state.rs:364-421 | after any history: the value of a valid name, the built-in value or nothing for one no longer given, and all else as it was |
| EnvironmentVariables.EverExactly | src/embedder/state.rs:364-395 | which names are ever applied |

## Left out

- Devices and libraries: EGL, DRM, GBM, PipeWire, GStreamer, PAM, xkb, D-Bus transport, files and processes are parameters or opaque ids.
- Rounding of floats: coordinates, alpha and brightness are exact reals, so error branches for values that are not finite cannot occur and the `1e-6` tolerance is only modelled as the constant it is.
- Library behaviour taken as given: the eight output transforms and the strict overlap of rectangles from Smithay, the binary heap as a multiset with a maximum, stable sorting, hash containers as sets and maps drained in any order.
- Same-turn timer races: cancelling a timer is atomic, one already queued by the event loop does not fire.
- Wrap-around of 64-bit counters: generations, tokens and texture ids are unbounded.
- Overflow in a debug build: the 32-bit sums of the clipped copy wrap, as in a release build.
- KeyRouting.KeyRouter.HandleKeyboardEvent: does not model Num Lock synchronisation, the Alt and Meta swap and key repeat, which change no set of held keys.
- KeyRouting.KeyRouter.HandleEmbedderHotkeys: does not model what the brightness, VT switch and exit hotkeys do, only that they swallow the event.
- KeyRouting.KeyRouter.PostFlutterHandleKeyEvent: does not model the text that reaches a text field of the shell.
- KeyRouting.GameKeysAreExact: keyboard focus is not modelled, so a key left down is left with whichever client then has it.
- LockState.LockState.Engage: does not model the saved keyboard focus, pointer focus, floating moves and render requests.
- LockState.LockState.Release: does not model restoring the keyboard focus.
- IdleMachine.IdleState.OnActivity: does not model the idle notifier and the render request.
- IdleMachine.IdleState.RefreshIdleInhibit: does not model telling the idle notifier of the inhibition.
- IdleMachine.IdleState.OnFadeTick: does not model the render request.
- IdleMachine.IdleState.OnBlankFired: does not model the backend's blank and render hooks.
- TexturePool.VeshellView.AcquireBackingStore: does not model the dmabuf slots of the direct scan-out path.
- TexturePool.VeshellView.PresentBackingStore: does not model submitting and keeping a dmabuf slot.
- WindowCapture.CaptureWindow: does not cover layers that start or reach more than a billion pixels away; `ReachesExactly` says which ends do not fit 32 bits.
- SuperKeyRuns.QueueIsInOrder: assumes that Flutter's verdicts come in the order of the events; key repeats, which change nothing, are left out of the runs.
- KeyRouting.VerdictReachesExactly: Flutter is not modelled, so a verdict may come for any event at any time; the exhibited runs keep to its order (`InOrder`).
- SuperKeyRuns.NoStuckKeys: says nothing across `clear`, gaming mode or a change of focus, where the source itself abandons the client's key state.
- SuperKeyRuns.BothOrNeither: does not cover keys whose classification as a modifier changes during the run, and keys of which a hotkey keeps an event from the shell, whose release alone may be sent.
- IdleRuns.ReachableInv: an uninhibited screen need not have its timers armed, since a finished capture and a lost recording do not recompute the inhibition.
- Idle details: the alpha getter of a hardware-dimmed panel, the D-Bus inhibitor thread and powering the outputs down and up.
- LockProtocol.ReachableInv: what a PAM stack decides is arbitrary; fairness and progress of the workers are not modelled.
- Texture pool: one view at a time, with textures; the scan-out buffers of the direct path and the table of views are not modelled.
- Recording: the bounded command channel, frame timestamps, the bit rate, the heartbeat and the end of a recording on a layout change.
- Capture: rendering a snapshot, window viewports and popups before they are layers, PNG encoding, the colour picker and the drag selection.
- Wheel scaling, output bounds and the choice of the focused view in input handling.
