/** What the lock protocol guarantees over every interleaving (src/embedder/lock/mod.rs). */
module LockTheorems {
  import opened Options
  import opened Authentication
  import opened LockState
  import opened LockProtocol

  // ----- the bookkeeping means what it says

  /** The session has been locked without a break since the step taken at time `t` locked it. */
  predicate LockedSince(run: Run, t: nat)
    requires Valid(run)
  {
    && run.Then? && Final(run).loop.locked
    && if Final(run.before).clock == t then !Final(run.before).loop.locked else LockedSince(run.before, t)
  }

  /** Worker `id` was spawned by the step taken at time `t`. */
  predicate SpawnedAt(run: Run, id: WorkerId, t: nat)
    requires Valid(run)
  {
    && run.Then? && id in Final(run).workers
    && if Final(run.before).clock == t then id !in Final(run.before).workers else SpawnedAt(run.before, id, t)
  }

  lemma {:induction false} ClockBounds(run: Run)
    requires Valid(run)
    ensures Final(run).loop.locked ==> Final(run).lockedAt < Final(run).clock
    ensures forall id | id in Final(run).workers :: Final(run).workers[id].born < Final(run).clock
  {
    if run.Then? {
      ClockBounds(run.before);
    }
  }

  lemma {:induction false} LockedAtIsExact(run: Run)
    requires Valid(run) && Final(run).loop.locked
    ensures LockedSince(run, Final(run).lockedAt)
  {
    if run.Then? {
      ClockBounds(run.before);
      if Final(run.before).loop.locked {
        LockedAtIsExact(run.before);
      }
    }
  }

  lemma {:induction false} BornIsExact(run: Run, id: WorkerId)
    requires Valid(run) && id in Final(run).workers
    ensures SpawnedAt(run, id, Final(run).workers[id].born)
  {
    if run.Then? {
      ClockBounds(run.before);
      if id in Final(run.before).workers {
        BornIsExact(run.before, id);
      }
    }
  }

  // ----- stale authentication never unlocks

  /** A restart that a prompt has already paid for. */
  function Owed(l: Loop): nat {
    if l.passwordPrompted && l.password.Some? then 1 else 0
  }

  /** What kind of callback it was, for the counts: how many causes it gives to start a password
      transaction, how many transactions failed in it, whether logind announced a suspend or its
      end, and whether it may unlock. */
  datatype Kind = Kind(causes: nat, failedPasswords: nat, failedPrints: nat, prepares: bool, resumes: bool, unlocks: bool)

  const PLAIN := Kind(0, 0, 0, false, false, false)

  /** What one callback may add to the counts, given its kind. */
  ghost predicate Accounted(l0: Loop, l: Loop, kind: Kind) {
    && (if l.turn.password.Some? then 1 else 0) + Owed(l)
         <= (if !l0.locked && l.locked then 0 else Owed(l0)) + kind.causes
    && (if !l0.locked && l.locked then kind.failedPrints == 0
        else l0.fingerprintFailures + kind.failedPrints
               <= l.fingerprintFailures + FINGERPRINT_ATTEMPTS * kind.failedPasswords)
    && l.turn.releases <= 1
    && (l.turn.releases == 1 || l.sleepReleaseToken.Some? <==>
          kind.prepares || (l0.sleepReleaseToken.Some? && !kind.resumes && l.locked))
    && (l.turn.releases == 1 ==> l.sleepReleaseToken.None?)
    && (l0.locked && !l.locked ==> kind.unlocks)
    && (l0.fingerprintAvailable == Some(false) ==>
          l.fingerprintAvailable == Some(false) && l.turn.fingerprint.None?)
    && Heard(l.turn.told, l0.locked) == l.locked
    && Hinted(l.turn.hint, l0.locked) == l.locked
  }

  /** What the shell takes the session for, having been told all this. */
  function Heard(told: seq<Notice>, before: bool): bool {
    if told == [] then before
    else if told[|told| - 1].LockStateChanged? then told[|told| - 1].locked
    else Heard(told[..|told| - 1], before)
  }

  /** What logind publishes as the locked hint. */
  function Hinted(hint: Option<bool>, before: bool): bool {
    if hint.Some? then hint.value else before
  }

  lemma LockAccounts(l: Loop, authenticate: bool, host: Host)
    requires LoopReady(l, NO_CUE)
    ensures Accounted(l, DoLock(l, authenticate, host), PLAIN.(causes := if !l.locked && authenticate then 1 else 0))
  {
  }

  lemma PrepareForSleepAccounts(l: Loop, host: Host)
    requires LoopReady(l, NO_CUE)
    ensures Accounted(l, DoLogind(l, PrepareForSleep, host), PLAIN.(prepares := true))
  {
    if !(l.locked && l.shown) {
      var locked := DoLock(l.(sleepPending := true), false, host);
      assert locked.turn.password.None? && locked.turn.releases == 0 && locked.turn.fingerprint.None?;
      assert Owed(locked) <= if l.locked then Owed(l) else 0;
      assert locked.fingerprintAvailable == l.fingerprintAvailable;
      assert l.locked ==> locked.fingerprintFailures == l.fingerprintFailures;
    }
  }

  lemma ResumeAccounts(l: Loop, host: Host)
    requires LoopReady(l, NO_CUE)
    ensures Accounted(l, DoResume(l, host), PLAIN.(causes := if l.locked then 1 else 0, resumes := true))
  {
  }

  lemma UnlockAccounts(l: Loop)
    requires LoopReady(l, NO_CUE)
    ensures Accounted(l, DoUnlock(l), PLAIN.(unlocks := true))
  {
  }

  lemma PasswordSuccessAccounts(l: Loop, host: Host)
    requires LoopReady(l, NO_CUE.(endsPassword := true)) && l.locked
    ensures Accounted(l, PasswordFinished(l, Success, host), PLAIN.(unlocks := true))
  {
  }

  /** A failed password tells the shell why, restores the fingerprint budget and, if a prompt has
      paid for it, starts over. */
  lemma PasswordFailureState(l: Loop, outcome: AuthOutcome, host: Host)
    requires LoopReady(l, NO_CUE.(endsPassword := true)) && l.locked && !outcome.Success?
    ensures var after := PasswordFinished(l, outcome, host);
      && after.turn.told == [AuthUpdate(Password, "failed", if outcome.Failed? then outcome.text else "", false)]
      && after.turn.hint.None? && after.locked && after.turn.releases == 0
      && after.sleepReleaseToken == l.sleepReleaseToken
      && after.fingerprintAvailable == l.fingerprintAvailable && after.fingerprintFailures == 0
      && (after.turn.password.Some? <==> l.passwordPrompted) && Owed(after) == 0
      && (l.fingerprintAvailable == Some(false) ==> after.turn.fingerprint.None?)
  {
  }

  lemma PasswordFailureAccounts(l: Loop, outcome: AuthOutcome, host: Host)
    requires LoopReady(l, NO_CUE.(endsPassword := true)) && l.locked && !outcome.Success?
    ensures Accounted(l, PasswordFinished(l, outcome, host), PLAIN.(failedPasswords := 1))
  {
    PasswordFailureState(l, outcome, host);
    HeardIn(PasswordFinished(l, outcome, host).turn.told, true);
  }

  lemma FingerprintSuccessAccounts(l: Loop, host: Host)
    requires LoopReady(l, NO_CUE.(endsFingerprint := true)) && l.locked
    ensures Accounted(l, FingerprintFinished(l, Success, host), PLAIN.(unlocks := true))
  {
  }

  lemma FingerprintFailureAccounts(l: Loop, outcome: AuthOutcome, host: Host)
    requires LoopReady(l, NO_CUE.(endsFingerprint := true)) && l.locked && !outcome.Success?
    ensures Accounted(l, FingerprintFinished(l, outcome, host), PLAIN.(failedPrints := 1))
  {
    HeardIn(FingerprintFinished(l, outcome, host).turn.told, true);
  }

  lemma FingerprintAccounts(l: Loop, outcome: AuthOutcome, host: Host)
    requires LoopReady(l, NO_CUE.(endsFingerprint := true)) && l.locked
    ensures Accounted(l, FingerprintFinished(l, outcome, host),
                      if outcome.Success? then PLAIN.(unlocks := true) else PLAIN.(failedPrints := 1))
  {
    if outcome.Success? {
      FingerprintSuccessAccounts(l, host);
    } else {
      FingerprintFailureAccounts(l, outcome, host);
    }
  }

  lemma TypedAccounts(l: Loop, answer: Answer)
    requires LoopReady(l, NO_CUE.(typed := Some(answer)))
    ensures Accounted(l, DoRespond(l, answer), PLAIN.(causes := if l.locked then 1 else 0))
  {
  }

  lemma ShownAccounts(l: Loop, host: Host)
    requires LoopReady(l, NO_CUE)
    ensures Accounted(l, DoShown(l, host), PLAIN)
  {
  }

  lemma TimerAccounts(l: Loop)
    requires LoopReady(l, NO_CUE.(fired := true))
    ensures Accounted(l, DoTimer(l), PLAIN)
  {
  }

  lemma TalkAccounts(l0: Loop, l: Loop)
    requires LoopReady(l0, NO_CUE)
    requires l == l0.(shown := l.shown, fingerprintMessage := l.fingerprintMessage, turn := QUIET.(told := l.turn.told))
    requires Heard(l.turn.told, l0.locked) == l0.locked
    ensures Accounted(l0, l, PLAIN)
  {
  }

  lemma {:induction false} HeardIn(told: seq<Notice>, before: bool)
    requires forall n | n in told :: n.LockStateChanged? ==> n.locked == before
    ensures Heard(told, before) == before
  {
    if told != [] {
      assert told[|told| - 1] in told;
      HeardIn(told[..|told| - 1], before);
    }
  }

  lemma ReplayAccounts(l: Loop)
    requires LoopReady(l, NO_CUE)
    ensures Accounted(l, DoReplay(l), PLAIN)
  {
    ReplayOnlyTells(l);
    HeardIn(DoReplay(l).turn.told, l.locked);
    TalkAccounts(l, DoReplay(l));
  }

  lemma PromptShownAccounts(l: Loop, message: string, echo: bool)
    requires LoopReady(l, NO_CUE.(hears := true)) && l.locked && l.queuedResponse.None?
    ensures Accounted(l, DoPrompt(l, message, echo), PLAIN.(causes := 1))
  {
    HeardIn(DoPrompt(l, message, echo).turn.told, true);
  }

  lemma PromptAnsweredAccounts(l: Loop, message: string, echo: bool)
    requires LoopReady(l, NO_CUE.(hears := true)) && l.locked && l.queuedResponse.Some?
    ensures Accounted(l, DoPrompt(l, message, echo), PLAIN.(causes := 1))
  {
    HeardIn([], true);
  }

  lemma PromptAccounts(l: Loop, message: string, echo: bool)
    requires LoopReady(l, NO_CUE.(hears := true)) && l.locked
    ensures Accounted(l, DoPrompt(l, message, echo), PLAIN.(causes := 1))
  {
    if l.queuedResponse.None? {
      PromptShownAccounts(l, message, echo);
    } else {
      PromptAnsweredAccounts(l, message, echo);
    }
  }

  function KindOfMessage(l: Loop, m: AuthMessage): Kind {
    if !l.locked || m.generation != l.generation then PLAIN
    else match m.event
      case Prompt(_, _) => if m.source == Password then PLAIN.(causes := 1) else PLAIN
      case Finished(outcome) =>
        if outcome.Success? then PLAIN.(unlocks := true)
        else if m.source == Password then PLAIN.(failedPasswords := 1) else PLAIN.(failedPrints := 1)
      case _ => PLAIN
  }

  /** A message of a stack, or a prompt of the fingerprint stack. */
  lemma MessageAccounts(l: Loop, m: AuthMessage, host: Host)
    requires LoopReady(l, NO_CUE) && l.locked && m.generation == l.generation
    requires !m.event.Finished? && !(m.source == Password && m.event.Prompt?)
    ensures Accounted(l, DoAuth(l, m, host), PLAIN)
  {
    HeardIn(DoAuth(l, m, host).turn.told, true);
    TalkAccounts(l, DoAuth(l, m, host));
  }

  lemma AuthAccounts(l: Loop, m: AuthMessage, host: Host)
    requires LoopReady(l, CueOfMessage(l, m))
    ensures Accounted(l, DoAuth(l, m, host), KindOfMessage(l, m))
  {
    if !l.locked || m.generation != l.generation {
      TalkAccounts(l, l);
    } else if m.event.Finished? {
      var outcome := m.event.outcome;
      if m.source == Fingerprint {
        FingerprintAccounts(l, outcome, host);
      } else if outcome.Success? {
        PasswordSuccessAccounts(l, host);
      } else {
        PasswordFailureAccounts(l, outcome, host);
      }
    } else if m.source == Password && m.event.Prompt? {
      PromptAccounts(l, m.event.message, m.event.echo);
    } else {
      MessageAccounts(l, m, host);
    }
  }

  function KindOf(w: World, input: Input): Kind
    requires InputEnabled(w, input)
  {
    match input
    case LockSession => PLAIN.(causes := if w.loop.locked then 0 else 1)
    case Logind(event) =>
      (match event
       case Lock => PLAIN.(causes := if w.loop.locked then 0 else 1)
       case Unlock => PLAIN.(unlocks := true)
       case PrepareForSleep => PLAIN.(prepares := true)
       case Resumed => PLAIN.(causes := if w.loop.locked then 1 else 0, resumes := true))
    case Typed(_) => PLAIN.(causes := if w.loop.locked then 1 else 0)
    case Deliver => KindOfMessage(w.loop, w.mail[0].message)
    case _ => PLAIN
  }

  lemma LogindAccounts(w: World, event: LogindEvent, host: Host)
    requires LoopReady(w.loop.(turn := QUIET), NO_CUE)
    ensures Accounted(w.loop.(turn := QUIET), DoLogind(w.loop.(turn := QUIET), event, host), KindOf(w, Logind(event)))
  {
    var l := w.loop.(turn := QUIET);
    match event {
      case Lock => LockAccounts(l, true, host);
      case Unlock => UnlockAccounts(l);
      case PrepareForSleep => PrepareForSleepAccounts(l, host);
      case Resumed => ResumeAccounts(l, host);
    }
  }

  lemma HandleAccounts(w: World, input: Input, host: Host)
    requires Inv(w) && InputEnabled(w, input)
    ensures Accounted(w.loop.(turn := QUIET), Handle(w, input, host), KindOf(w, input))
  {
    ReadyForInput(w, input);
    var l := w.loop.(turn := QUIET);
    match input {
      case LockSession => LockAccounts(l, true, host);
      case Logind(event) => LogindAccounts(w, event, host);
      case Typed(text) => TypedAccounts(l, Answer(w.nextTicket, text));
      case Shown => ShownAccounts(l, host);
      case ShellReady => ReplayAccounts(l);
      case TimerFired(_) => TimerAccounts(l);
      case Deliver =>
        var m := w.mail[0].message;
        assert CueOf(w, input) == CueOfMessage(l, m);
        AuthAccounts(l, m, host);
        assert Handle(w, input, host) == DoAuth(l, m, host);
        assert KindOf(w, input) == KindOfMessage(l, m);
    }
  }

  lemma {:induction false} UnlockCauses(w: World, input: Input, host: Host)
    requires Inv(w) && InputEnabled(w, input)
    requires w.loop.locked && !Handle(w, input, host).locked
    ensures input == Logind(Unlock)
      || (Accepted(w, input) && w.mail[0].message.event == Finished(Success))
  {
    HandleAccounts(w, input, host);
  }

  /** Logind's word, or an accepted success of either kind. */
  predicate Unlocks(w: World, input: Input)
    requires InputEnabled(w, input)
  {
    input == Logind(Unlock) || (Accepted(w, input) && w.mail[0].message.event == Finished(Success))
  }

  lemma SuccessUnlocks(l: Loop, m: AuthMessage, host: Host)
    requires l.locked && m.generation == l.generation && m.event == Finished(Success)
    ensures !DoAuth(l, m, host).locked
  {
  }

  /** A locked session is unlocked by a step if and only if the step is logind's word, or the delivery
      of an accepted success: one of a transaction that was started in this very lock, the session
      having been locked since `lockedAt` and the worker spawned at that step or a later one. */
  lemma {:induction false} UnlockIsAuthorised(run: Run)
    requires Valid(run) && run.Then? && Final(run.before).loop.locked
    ensures !Final(run).loop.locked <==> run.step.Callback? && Unlocks(Final(run.before), run.step.input)
    ensures !Final(run).loop.locked && run.step.input != Logind(Unlock) ==>
      var w := Final(run.before);
      var id := w.mail[0].sender;
      && LockedSince(run.before, w.lockedAt)
      && id in w.workers && w.workers[id].born >= w.lockedAt
      && SpawnedAt(run.before, id, w.workers[id].born)
  {
    ReachableInv(run.before);
    match run.step {
      case Callback(input, luck) =>
        UnlocksExactly(Final(run.before), input, luck.host);
        if Unlocks(Final(run.before), input) && input != Logind(Unlock) {
          AcceptedIsOfThisLock(run.before, input);
        }
      case Work(_, _) =>
    }
  }

  lemma UnlocksExactly(w: World, input: Input, host: Host)
    requires Inv(w) && InputEnabled(w, input) && w.loop.locked
    ensures !Handle(w, input, host).locked <==> Unlocks(w, input)
  {
    if Unlocks(w, input) {
      if input != Logind(Unlock) {
        SuccessUnlocks(w.loop.(turn := QUIET), w.mail[0].message, host);
      }
    } else if !Handle(w, input, host).locked {
      UnlockCauses(w, input, host);
    }
  }

  lemma AcceptedIsOfThisLock(run: Run, input: Input)
    requires Valid(run) && InputEnabled(Final(run), input) && Accepted(Final(run), input)
    ensures var w := Final(run);
      var id := w.mail[0].sender;
      && LockedSince(run, w.lockedAt)
      && id in w.workers && w.workers[id].born >= w.lockedAt
      && SpawnedAt(run, id, w.workers[id].born)
  {
    ReachableInv(run);
    LockedAtIsExact(run);
    AcceptedIsCurrent(Final(run), input);
    BornIsExact(run, Final(run).mail[0].sender);
  }

  /** An unlocked session keeps nothing of the authentication: no responder, no prompt, no queued
      answer, no running reader and no worker whose result could still count. */
  lemma {:induction false} UnlockedIsClean(run: Run)
    requires Valid(run) && !Final(run).loop.locked
    ensures var l := Final(run).loop;
      && l.password.None? && l.pendingPrompt.None? && l.queuedResponse.None? && !l.fingerprintRunning
      && forall id: WorkerId, source: AuthSource :: !Current(Final(run), id, source)
  {
    ReachableInv(run);
    var w := Final(run);
    forall id: WorkerId, source: AuthSource ensures !Current(w, id, source) {
      assert Current(w, id, Password) <==> w.loop.password == Some(id);
      assert Current(w, id, Fingerprint) <==> w.reader == Some(id);
    }
  }

  // ----- the loop knows who is authenticating

  ghost predicate UnfinishedPassword(w: World, id: WorkerId) {
    Current(w, id, Password) && w.workers[id].status != Stillborn
  }

  predicate PasswordStillborn(w: World) {
    w.loop.password.Some? && w.loop.password.value in w.workers
    && w.workers[w.loop.password.value].status == Stillborn
  }

  /** The host had no thread for worker `id` when it was spawned. */
  predicate ThreadRefused(run: Run, id: WorkerId)
    requires Valid(run)
  {
    && run.Then? && id in Final(run).workers
    && if id in Final(run.before).workers then ThreadRefused(run.before, id)
       else run.step.Callback?
            && if Final(run).workers[id].source == Password then !run.step.luck.passwordThread
               else !run.step.luck.fingerprintThread
  }

  lemma SettledWorker(w: World, input: Input, luck: Luck, id: WorkerId)
    requires Inv(w) && InputEnabled(w, input) && id in AfterCallback(w, input, luck).workers
    ensures var x := AfterCallback(w, input, luck).workers[id];
      if id in w.workers then
        x.source == w.workers[id].source && (x.status == Stillborn <==> w.workers[id].status == Stillborn)
      else x.status == Stillborn <==> if x.source == Password then !luck.passwordThread else !luck.fingerprintThread
  {
    if id in w.workers && input.Deliver? && w.mail[0].sender == id {
      assert w.workers[id].status == Running || w.workers[id].status == Ending;
    }
  }

  lemma WorkedWorker(w: World, worker: WorkerId, action: Action, id: WorkerId)
    requires Enabled(w, Work(worker, action)) && id in AfterWork(w, worker, action).workers
    ensures id in w.workers && AfterWork(w, worker, action).workers[id].source == w.workers[id].source
    ensures AfterWork(w, worker, action).workers[id].status == Stillborn <==> w.workers[id].status == Stillborn
  {
  }

  lemma {:induction false} StillbornMeansRefused(run: Run, id: WorkerId)
    requires Valid(run) && id in Final(run).workers
    ensures Final(run).workers[id].status == Stillborn <==> ThreadRefused(run, id)
  {
    if run.Then? {
      ReachableInv(run.before);
      var w := Final(run.before);
      if id in w.workers {
        StillbornMeansRefused(run.before, id);
      }
      match run.step {
        case Callback(input, luck) => SettledWorker(w, input, luck, id);
        case Work(worker, action) => WorkedWorker(w, worker, action, id);
      }
    }
  }

  /** `password.is_some()` means exactly one unfinished password worker of this generation, if
      and only if the host had a thread for the worker it was set for. */
  lemma {:induction false} PasswordMeansWorkerExactly(run: Run)
    requires Valid(run)
    ensures var w := Final(run);
      (w.loop.password.Some? <==> exists id: WorkerId :: UnfinishedPassword(w, id))
      <==> !(w.loop.password.Some? && ThreadRefused(run, w.loop.password.value))
    ensures forall id: WorkerId, jd: WorkerId ::
      UnfinishedPassword(Final(run), id) && UnfinishedPassword(Final(run), jd) ==> id == jd
  {
    ReachableInv(run);
    var w := Final(run);
    assert forall id: WorkerId :: Current(w, id, Password) <==> w.loop.password == Some(id);
    if w.loop.password.Some? {
      assert Current(w, w.loop.password.value, Password);
      StillbornMeansRefused(run, w.loop.password.value);
      if !PasswordStillborn(w) {
        assert UnfinishedPassword(w, w.loop.password.value);
      }
    }
  }

  ghost predicate UnfinishedFingerprint(w: World, id: WorkerId) {
    Current(w, id, Fingerprint) && w.workers[id].status != Stillborn
  }

  predicate ReaderStillborn(w: World) {
    w.reader.Some? && w.reader.value in w.workers && w.workers[w.reader.value].status == Stillborn
  }

  /** `fingerprint_running` means exactly one unfinished fingerprint worker of this generation, if
      and only if the host had a thread for the worker it was set for. */
  lemma {:induction false} FingerprintMeansWorkerExactly(run: Run)
    requires Valid(run)
    ensures var w := Final(run);
      (w.loop.fingerprintRunning <==> exists id: WorkerId :: UnfinishedFingerprint(w, id))
      <==> !(w.reader.Some? && ThreadRefused(run, w.reader.value))
    ensures forall id: WorkerId, jd: WorkerId ::
      UnfinishedFingerprint(Final(run), id) && UnfinishedFingerprint(Final(run), jd) ==> id == jd
    ensures Final(run).loop.fingerprintRunning <==> Final(run).reader.Some?
  {
    ReachableInv(run);
    var w := Final(run);
    assert forall id: WorkerId :: Current(w, id, Fingerprint) <==> w.reader == Some(id);
    if w.reader.Some? {
      assert Current(w, w.reader.value, Fingerprint);
      StillbornMeansRefused(run, w.reader.value);
      if !ReaderStillborn(w) {
        assert UnfinishedFingerprint(w, w.reader.value);
      }
    }
  }

  /** A lock whose fingerprint thread cannot be started: `fingerprint_running` is set and no worker
      is behind it. */
  lemma ReaderStillbornCanHappen() returns (run: Run)
    ensures Valid(run) && Final(run).loop.locked && Final(run).loop.fingerprintRunning && ReaderStillborn(Final(run))
  {
    var luck := Luck(Host(true, true), true, false, true);
    run := Then(Boot, Callback(LockSession, luck));
    assert Valid(Boot);
    var w := Final(run);
    assert w.loop.turn.fingerprint == Some(1) && w.reader == Some(1);
    assert w.workers[1] == Newborn(Fingerprint, 1, 0, false);
  }

  lemma ReaderStillbornStepStuck(w: World, step: Step)
    requires Inv(w) && Enabled(w, step)
    ensures var after := After(w, step);
      w.loop.locked && ReaderStillborn(w) && after.loop.generation == w.loop.generation ==>
        && after.loop.locked && after.reader == w.reader && ReaderStillborn(after)
        && (step.Callback? ==> after.loop.turn.fingerprint.None?)
  {
    var after := After(w, step);
    if w.loop.locked && ReaderStillborn(w) && after.loop.generation == w.loop.generation {
      var id := w.reader.value;
      match step {
        case Callback(input, luck) =>
          HandleMeets(w, input, luck.host);
          assert Current(w, id, Fingerprint);
          if Ends(w, input, Fingerprint) {
            AcceptedIsCurrent(w, input);
            assert false;
          }
          SettledWorker(w, input, luck, id);
        case Work(worker, action) => WorkedWorker(w, worker, action, id);
      }
    }
  }

  /** Such a lock starts no other fingerprint transaction until it ends: no failed password, no
      resume and no budget gives the reader back. */
  lemma {:induction false} ReaderStillbornIsStuck(run: Run, earlier: Run)
    requires Valid(run) && Valid(earlier) && Extends(run, earlier)
    ensures var w0, w := Final(earlier), Final(run);
      w0.loop.locked && ReaderStillborn(w0) && w.loop.generation == w0.loop.generation ==>
        && w.loop.locked && w.reader == w0.reader && ReaderStillborn(w)
        && (run != earlier && run.step.Callback? ==> w.loop.turn.fingerprint.None?)
  {
    var w0, w := Final(earlier), Final(run);
    if run != earlier && w0.loop.locked && ReaderStillborn(w0) && w.loop.generation == w0.loop.generation {
      GenerationsGrow(run.before, earlier);
      ReachableInv(run.before);
      if run.step.Callback? {
        HandleMeets(Final(run.before), run.step.input, run.step.luck.host);
      }
      ReaderStillbornIsStuck(run.before, earlier);
      ReaderStillbornStepStuck(Final(run.before), run.step);
    }
  }

  /** A lock whose password thread cannot be started: `password` is set and no worker is behind it. */
  lemma {:induction false} StillbornCanHappen() returns (run: Run)
    ensures Valid(run) && Final(run).loop.locked && PasswordStillborn(Final(run))
  {
    var luck := Luck(Host(false, true), false, true, true);
    run := Then(Boot, Callback(LockSession, luck));
    assert Valid(Boot);
    var w := Final(run);
    assert w.loop.turn.password == Some(0);
    assert w.workers[0] == Newborn(Password, 1, 0, false);
  }

  predicate Extends(run: Run, earlier: Run) {
    run == earlier || (run.Then? && Extends(run.before, earlier))
  }

  lemma {:induction false} GenerationsGrow(run: Run, earlier: Run)
    requires Valid(run) && Valid(earlier) && Extends(run, earlier)
    ensures Final(earlier).loop.generation <= Final(run).loop.generation
  {
    if run != earlier {
      GenerationsGrow(run.before, earlier);
      if run.step.Callback? {
        ReachableInv(run.before);
        HandleMeets(Final(run.before), run.step.input, run.step.luck.host);
      }
    }
  }

  lemma StillbornStepStuck(w: World, step: Step)
    requires Inv(w) && Enabled(w, step)
    ensures var after := After(w, step);
      w.loop.locked && PasswordStillborn(w) && after.loop.generation == w.loop.generation ==>
        && after.loop.locked && after.loop.password == w.loop.password && PasswordStillborn(after)
        && after.loop.pendingPrompt.None?
  {
    var after := After(w, step);
    if w.loop.locked && PasswordStillborn(w) && after.loop.generation == w.loop.generation {
      var id := w.loop.password.value;
      assert Counted(w.workers[id], Prompts(w.mail, id));
      match step {
        case Callback(input, luck) =>
          HandleMeets(w, input, luck.host);
          CallbackKeepsInv(w, input, luck);
          assert Current(w, id, Password);
          if Ends(w, input, Password) || Hears(w, input) {
            AcceptedIsCurrent(w, input);
            assert false;
          }
          assert Counted(after.workers[id], Prompts(after.mail, id));
        case Work(_, _) =>
          WorkKeepsInv(w, step.worker, step.action);
          assert Counted(after.workers[id], Prompts(after.mail, id));
      }
    }
  }

  /** Such a lock stays without a password prompt until it ends: nothing typed, no resume and no
      failed fingerprint starts another password transaction. */
  lemma {:induction false} StillbornIsStuck(run: Run, earlier: Run)
    requires Valid(run) && Valid(earlier) && Extends(run, earlier)
    ensures var w0, w := Final(earlier), Final(run);
      w0.loop.locked && PasswordStillborn(w0) && w.loop.generation == w0.loop.generation ==>
        && w.loop.locked && PasswordStillborn(w)
        && w.loop.password == w0.loop.password && w.loop.pendingPrompt.None?
  {
    var w0, w := Final(earlier), Final(run);
    if w0.loop.locked && PasswordStillborn(w0) && w.loop.generation == w0.loop.generation {
      ReachableInv(run);
      if run == earlier {
        assert Counted(w.workers[w.loop.password.value], Prompts(w.mail, w.loop.password.value));
      } else {
        GenerationsGrow(run.before, earlier);
        ReachableInv(run.before);
        if run.step.Callback? {
          HandleMeets(Final(run.before), run.step.input, run.step.luck.host);
        }
        StillbornIsStuck(run.before, earlier);
        StillbornStepStuck(Final(run.before), run.step);
      }
    }
  }

  // ----- prompts and answers

  /** Each typed answer is given to at most one worker and at most once, only to a worker of the
      generation it was typed in, and a worker is never given more answers than the loop has
      heard prompts from it. Fingerprint workers are given none. */
  lemma {:induction false} AnswersAreGivenOnce(run: Run)
    requires Valid(run)
    ensures var w := Final(run);
      && (forall id, i, jd, j |
            && id in w.workers && 0 <= i < |w.workers[id].given|
            && jd in w.workers && 0 <= j < |w.workers[jd].given|
            && w.workers[id].given[i].ticket == w.workers[jd].given[j].ticket :: id == jd && i == j)
      && (forall id, i | id in w.workers && 0 <= i < |w.workers[id].given| ::
            TicketOf(w, w.workers[id].given[i], w.workers[id].generation))
      && (forall id | id in w.workers ::
            && w.workers[id].taken <= |w.workers[id].given| <= w.workers[id].heard <= w.workers[id].asked
            && (w.workers[id].source == Fingerprint ==> w.workers[id].given == []))
  {
    ReachableInv(run);
    var w := Final(run);
    forall id | id in w.workers
      ensures w.workers[id].taken <= |w.workers[id].given| <= w.workers[id].heard <= w.workers[id].asked
      ensures w.workers[id].source == Fingerprint ==> w.workers[id].given == []
    {
      assert Counted(w.workers[id], Prompts(w.mail, id));
    }
  }

  /** An answer is only ever sent to a running worker that is blocked on the prompt it answers,
      so the send cannot fail and the answer cannot reach a later prompt. */
  lemma {:induction false} AnswerMeetsItsPrompt(run: Run, input: Input, luck: Luck)
    requires Valid(run) && InputEnabled(Final(run), input)
    ensures var w, answered := Final(run), Handle(Final(run), input, luck.host).turn.answered;
      answered.Some? ==>
        var id := answered.value.worker;
        && id in w.workers && w.workers[id].status == Running && w.workers[id].waiting
        && w.workers[id].asked == |w.workers[id].given| + 1 && w.workers[id].taken == |w.workers[id].given|
  {
    ReachableInv(run);
    HandleMeets(Final(run), input, luck.host);
    if Handle(Final(run), input, luck.host).turn.answered.Some? {
      AnsweredIsWaiting(Final(run), input, Handle(Final(run), input, luck.host));
    }
  }

  /** A prompt is on show exactly while the current password worker has been heard asking and has
      not been answered. */
  lemma {:induction false} PromptShownExactly(run: Run)
    requires Valid(run)
    ensures var w := Final(run);
      w.loop.pendingPrompt.Some? <==>
        w.loop.password.Some? && w.loop.password.value in w.workers
        && w.workers[w.loop.password.value].heard > |w.workers[w.loop.password.value].given|
  {
    ReachableInv(run);
  }

  // ----- counting over runs

  /** Counts since the session was last locked, and the suspend that a release may still serve:
      `starts` of password transactions, the `causes` they may have, failed transactions of either
      kind, and `suspend`, one for each `PrepareForSleep` that has not been released for, resumed
      from or unlocked out of. */
  datatype Tally = Tally(starts: nat, causes: nat, failedPasswords: nat, failedPrints: nat, suspend: int)

  function CountCallback(t: Tally, w: World, input: Input, l: Loop): Tally
    requires InputEnabled(w, input)
  {
    var kind := KindOf(w, input);
    var locking, unlocking := !w.loop.locked && l.locked, w.loop.locked && !l.locked;
    var base := if locking then t.(starts := 0, causes := 0, failedPasswords := 0, failedPrints := 0) else t;
    var granted := if kind.prepares then 1 else if kind.resumes || unlocking then 0 else t.suspend;
    Tally(base.starts + (if l.turn.password.Some? then 1 else 0),
          base.causes + kind.causes,
          base.failedPasswords + kind.failedPasswords,
          base.failedPrints + kind.failedPrints,
          granted - l.turn.releases)
  }

  function Count(run: Run): Tally
    requires Valid(run)
  {
    if run.Boot? then Tally(0, 0, 0, 0, 0)
    else match run.step
      case Callback(input, luck) =>
        CountCallback(Count(run.before), Final(run.before), input, Handle(Final(run.before), input, luck.host))
      case Work(_, _) => Count(run.before)
  }

  lemma {:induction false} Accounts(run: Run)
    requires Valid(run)
    ensures var t, l := Count(run), Final(run).loop;
      && t.starts + Owed(l) <= t.causes
      && (l.locked ==> t.failedPrints <= FINGERPRINT_ATTEMPTS * t.failedPasswords + l.fingerprintFailures)
      && 0 <= t.suspend <= 1
      && (l.sleepReleaseToken.Some? <==> t.suspend == 1)
  {
    if run.Then? {
      Accounts(run.before);
      ReachableInv(run.before);
      if run.step.Callback? {
        var w := Final(run.before);
        HandleAccounts(w, run.step.input, run.step.luck.host);
        CallbackKeepsInv(w, run.step.input, run.step.luck);
      }
    }
  }

  /** No restart loop: within one lock, a password transaction is started at most once for the
      lock itself and for each resume, typed answer and prompt. A stack that never prompts is
      therefore never restarted on its own. */
  lemma {:induction false} PasswordStartsAreCaused(run: Run)
    requires Valid(run)
    ensures Count(run).starts <= Count(run).causes
  {
    Accounts(run);
  }

  /** The fingerprint budget: one lock sees at most three failed fingerprint transactions, and
      three more for each failed password transaction. */
  lemma {:induction false} FingerprintBudget(run: Run)
    requires Valid(run) && Final(run).loop.locked
    ensures Count(run).failedPrints <= 3 * (1 + Count(run).failedPasswords)
    ensures Final(run).loop.fingerprintFailures <= 3
    ensures Final(run).loop.fingerprintRunning ==> Final(run).loop.fingerprintFailures < 3
  {
    Accounts(run);
    ReachableInv(run);
  }

  /** Once a transaction has found no usable reader, no fingerprint transaction is started again,
      in this lock or a later one. */
  lemma {:induction false} ReaderlessStaysQuiet(run: Run, earlier: Run)
    requires Valid(run) && Valid(earlier) && Extends(run, earlier)
    requires Final(earlier).loop.fingerprintAvailable == Some(false)
    ensures Final(run).loop.fingerprintAvailable == Some(false) && !Final(run).loop.fingerprintRunning
    ensures run != earlier && run.step.Callback? ==> Final(run).loop.turn.fingerprint.None?
  {
    ReachableInv(run);
    if run != earlier {
      ReaderlessStaysQuiet(run.before, earlier);
      ReachableInv(run.before);
      if run.step.Callback? {
        HandleAccounts(Final(run.before), run.step.input, run.step.luck.host);
      }
    }
  }

  /** Each `PrepareForSleep` leads to at most one release of the inhibitor, and none comes after
      the resume or the unlock that follows it and before the next `PrepareForSleep`: the balance
      of suspends never goes negative. */
  lemma {:induction false} ReleasesServeTheirSuspend(run: Run)
    requires Valid(run)
    ensures 0 <= Count(run).suspend <= 1
  {
    Accounts(run);
  }

  /** At the loop, a pending suspend has an armed release timer, an armed timer means the session
      is locked, and no timer is live but the remembered one. A suspend is unreleased exactly
      while its timer is armed, so none is forgotten. */
  lemma {:induction false} ReleaseTimerIsTracked(run: Run)
    requires Valid(run)
    ensures var w := Final(run);
      && w.timers == Own(w.loop.sleepReleaseToken)
      && (w.loop.sleepPending ==> w.loop.sleepReleaseToken.Some?)
      && (w.loop.sleepReleaseToken.Some? ==> w.loop.locked)
      && (w.loop.sleepReleaseToken.Some? <==> Count(run).suspend == 1)
  {
    ReachableInv(run);
    Accounts(run);
  }

  predicate LeavesInhibitor(l: Loop) {
    l.turn.releases == 0 && l.turn.armed.None?
  }

  lemma PasswordLeavesInhibitor(l: Loop, outcome: AuthOutcome, host: Host)
    requires l.turn == QUIET
    ensures LeavesInhibitor(PasswordFinished(l, outcome, host))
  {
  }

  lemma FingerprintLeavesInhibitor(l: Loop, outcome: AuthOutcome, host: Host)
    requires l.turn == QUIET
    ensures LeavesInhibitor(FingerprintFinished(l, outcome, host))
  {
  }

  lemma AuthLeavesInhibitor(l: Loop, m: AuthMessage, host: Host)
    requires l.turn == QUIET
    ensures LeavesInhibitor(DoAuth(l, m, host))
  {
    if m.event.Finished? {
      PasswordLeavesInhibitor(l, m.event.outcome, host);
      FingerprintLeavesInhibitor(l, m.event.outcome, host);
    }
  }

  lemma PrepareIsTimely(l: Loop, host: Host)
    requires l.turn == QUIET
    ensures var after := DoLogind(l, PrepareForSleep, host);
      && (after.turn.releases == 1 ==> !host.scheduled || (l.locked && l.shown))
      && (after.turn.armed.Some? ==>
            host.scheduled && !(l.locked && l.shown) && after.turn.armed.value.delay == SLEEP_DRAW_GRACE)
  {
  }

  lemma ShownIsTimely(l: Loop, host: Host)
    requires l.turn == QUIET
    ensures var after := DoShown(l, host);
      && (after.turn.releases == 1 ==> !host.scheduled)
      && (after.turn.armed.Some? ==>
            host.scheduled && l.sleepPending && after.turn.armed.value.delay == SLEEP_RELEASE_DELAY)
  {
  }

  lemma LogindLeavesInhibitor(l: Loop, event: LogindEvent, host: Host)
    requires l.turn == QUIET && !event.PrepareForSleep?
    ensures LeavesInhibitor(DoLogind(l, event, host))
  {
  }

  /** When the inhibitor is let go: at once only for a lock screen that is already drawn, or when
      the host has no timer; otherwise by the timer, armed with the grace for drawing and again
      with the short delay once the shell has drawn. */
  lemma {:induction false} ReleaseIsTimely(w: World, input: Input, host: Host)
    requires InputEnabled(w, input)
    ensures var l0, l := w.loop, Handle(w, input, host);
      var prepares := input == Logind(PrepareForSleep);
      && (l.turn.releases == 1 ==>
            !host.scheduled || input.TimerFired? || (prepares && l0.locked && l0.shown))
      && (l.turn.armed.Some? ==>
            && host.scheduled
            && if prepares then !(l0.locked && l0.shown) && l.turn.armed.value.delay == SLEEP_DRAW_GRACE
               else input.Shown? && l0.sleepPending && l.turn.armed.value.delay == SLEEP_RELEASE_DELAY)
  {
    var l := w.loop.(turn := QUIET);
    match input {
      case Logind(event) =>
        if event.PrepareForSleep? {
          PrepareIsTimely(l, host);
        } else {
          LogindLeavesInhibitor(l, event, host);
        }
      case Shown => ShownIsTimely(l, host);
      case Deliver => AuthLeavesInhibitor(l, w.mail[0].message, host);
      case ShellReady => ReplayOnlyTells(l);
      case LockSession => assert LeavesInhibitor(DoLock(l, true, host));
      case _ =>
    }
  }

  // ----- what the shell, logind and the user can rely on

  /** What the shell takes the session for. A shell that is gone believes nothing, and the next one
      starts out taking the session for unlocked. */
  function ShellBelieves(run: Run): bool
    requires Valid(run)
  {
    run.Then? &&
    if !run.step.Callback? then ShellBelieves(run.before)
    else run.step.luck.engine && Heard(Final(run).loop.turn.told, ShellBelieves(run.before))
  }

  /** There has been an engine ever since its shell last reported ready. */
  predicate Informed(run: Run) {
    run.Then? ==>
      if !run.step.Callback? then Informed(run.before)
      else run.step.luck.engine && (Informed(run.before) || run.step.input.ShellReady?)
  }

  /** The locked hint logind publishes. `connected` says whether the backend talks to logind, which
      never changes. */
  function LogindBelieves(run: Run, connected: bool): bool
    requires Valid(run)
  {
    connected && run.Then? &&
    if run.step.Callback? then Hinted(Final(run).loop.turn.hint, LogindBelieves(run.before, connected))
    else LogindBelieves(run.before, connected)
  }

  /** What was told overrides what was believed, or leaves it. */
  lemma {:induction false} HeardOverrides(told: seq<Notice>, a: bool, b: bool)
    ensures Heard(told, a) == Heard(told, b) || (Heard(told, a) == a && Heard(told, b) == b)
  {
    if told != [] && !told[|told| - 1].LockStateChanged? {
      HeardOverrides(told[..|told| - 1], a, b);
    }
  }

  lemma {:induction false} HeardFirst(told: seq<Notice>, before: bool)
    requires told != [] && told[0] == LockStateChanged(true)
    requires forall n | n in told :: n.LockStateChanged? ==> n.locked
    ensures Heard(told, before)
  {
    var init, last := told[..|told| - 1], told[|told| - 1];
    assert last in told;
    if init != [] {
      HeardFirst(init, before);
    }
  }

  lemma TellingInforms(w: World, input: Input, host: Host, shell: bool, hint: bool)
    requires Inv(w) && InputEnabled(w, input)
    requires shell ==> w.loop.locked
    ensures var l := Handle(w, input, host);
      && (Heard(l.turn.told, shell) ==> l.locked)
      && (shell == w.loop.locked || input.ShellReady? ==> Heard(l.turn.told, shell) == l.locked)
      && (hint == w.loop.locked ==> Hinted(l.turn.hint, hint) == l.locked)
  {
    HandleAccounts(w, input, host);
    var l := Handle(w, input, host);
    HeardOverrides(l.turn.told, shell, w.loop.locked);
    if input.ShellReady? && w.loop.locked {
      HeardFirst(l.turn.told, shell);
    }
  }

  /** A shell that has been up since it reported ready takes the session for locked exactly when it
      is, and one that has not never takes an unlocked session for locked. A logind that the backend
      talks to publishes exactly the lock. */
  lemma {:induction false} EveryoneKnowsTheLock(run: Run, connected: bool)
    requires Valid(run)
    ensures ShellBelieves(run) ==> Final(run).loop.locked
    ensures Informed(run) ==> ShellBelieves(run) == Final(run).loop.locked
    ensures LogindBelieves(run, connected) == (connected && Final(run).loop.locked)
  {
    if run.Then? {
      EveryoneKnowsTheLock(run.before, connected);
      ReachableInv(run.before);
      if run.step.Callback? {
        TellingInforms(Final(run.before), run.step.input, run.step.luck.host, ShellBelieves(run.before),
                       LogindBelieves(run.before, connected));
      }
    }
  }

  // ----- answers and resumes find a transaction

  lemma PasswordBehind(w: World)
    requires Inv(w)
    ensures (exists id: WorkerId :: UnfinishedPassword(w, id)) <==> w.loop.password.Some? && !PasswordStillborn(w)
  {
    assert forall id: WorkerId :: Current(w, id, Password) <==> w.loop.password == Some(id);
    if w.loop.password.Some? && !PasswordStillborn(w) {
      assert Current(w, w.loop.password.value, Password);
      assert UnfinishedPassword(w, w.loop.password.value);
    }
  }

  /** After a callback that leaves a lock with a password worker, that worker has a thread if and
      only if it had one before, or was started now and the host had a thread for it. */
  lemma PasswordBehindAfter(w: World, input: Input, luck: Luck)
    requires Inv(w) && InputEnabled(w, input)
    requires var l := Handle(w, input, luck.host);
      l.password.Some? && if l.turn.password.Some? then l.password == l.turn.password else l.password == w.loop.password
    ensures (exists id: WorkerId :: UnfinishedPassword(AfterCallback(w, input, luck), id)) <==>
      if Handle(w, input, luck.host).turn.password.Some? then luck.passwordThread else !PasswordStillborn(w)
  {
    var after := AfterCallback(w, input, luck);
    var id := after.loop.password.value;
    CallbackKeepsInv(w, input, luck);
    PasswordBehind(after);
    assert Current(after, id, Password);
    HandleMeets(w, input, luck.host);
    SettledWorker(w, input, luck, id);
    assert Current(w, id, Password) <==> w.loop.password == Some(id);
  }

  /** An answer typed at the lock screen is handed to the worker that waits, or kept for the first
      prompt of the transaction under way or just started. Somebody works on that transaction if and
      only if the host had a thread for it. */
  lemma {:induction false} TypingFindsATransaction(run: Run, text: string, luck: Luck)
    requires Valid(run) && Final(run).loop.locked
    ensures var w := Final(run);
      var l, answer := Handle(w, Typed(text), luck.host), Answer(w.nextTicket, text);
      && l.password.Some?
      && (if w.loop.pendingPrompt.Some? then l.turn.answered == Some(Handover(l.password.value, answer))
          else l.turn.answered.None? && l.queuedResponse == Some(answer))
      && ((exists id: WorkerId :: UnfinishedPassword(AfterCallback(w, Typed(text), luck), id)) <==>
            if w.loop.password.Some? then !PasswordStillborn(w) else luck.passwordThread)
  {
    ReachableInv(run);
    var w := Final(run);
    PasswordBehindAfter(w, Typed(text), luck);
  }

  /** A prompt of the current worker is answered at once with the kept answer, or else put on show. */
  lemma {:induction false} PromptIsAnsweredOrShown(run: Run, luck: Luck)
    requires Valid(run) && InputEnabled(Final(run), Deliver) && Hears(Final(run), Deliver)
    ensures var w := Final(run);
      var l, m := Handle(w, Deliver, luck.host), w.mail[0];
      match w.loop.queuedResponse
      case Some(answer) =>
        && l.turn.answered == Some(Handover(m.sender, answer)) && l.queuedResponse.None? && l.pendingPrompt.None?
      case None =>
        && l.turn.answered.None? && l.pendingPrompt == Some((m.message.event.message, m.message.event.echo))
        && l.turn.told == [AuthUpdate(Password, "prompt", m.message.event.message, m.message.event.echo)]
  {
    ReachableInv(run);
    AcceptedIsCurrent(Final(run), Deliver);
    var w := Final(run);
    assert Current(w, w.mail[0].sender, Password) <==> w.loop.password == Some(w.mail[0].sender);
  }

  lemma ResumeKeepsPassword(l: Loop, host: Host)
    requires l.turn == QUIET && l.locked
    ensures var after := DoResume(l, host);
      && after.locked && after.password.Some?
      && if l.password.Some? then after.password == l.password && after.turn.password.None?
         else after.turn.password == after.password
  {
  }

  /** A locked session that resumes has a password transaction, a new one only if it had none.
      Somebody works on it if and only if the host had a thread for it. */
  lemma {:induction false} ResumedLockAuthenticates(run: Run, luck: Luck)
    requires Valid(run) && Final(run).loop.locked
    ensures var w := Final(run);
      var l0, l := w.loop, Handle(w, Logind(Resumed), luck.host);
      && l.locked && l.password.Some?
      && (if l0.password.Some? then l.password == l0.password else l.turn.password == l.password)
      && ((exists id: WorkerId :: UnfinishedPassword(AfterCallback(w, Logind(Resumed), luck), id)) <==>
            if l0.password.Some? then !PasswordStillborn(w) else luck.passwordThread)
  {
    ReachableInv(run);
    var w := Final(run);
    ResumeKeepsPassword(w.loop.(turn := QUIET), luck.host);
    PasswordBehindAfter(w, Logind(Resumed), luck);
  }
}
