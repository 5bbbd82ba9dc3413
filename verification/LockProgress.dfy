/** What the lock does about everything that can reach it: which transactions start, what is told,
    counted and released (src/embedder/lock/mod.rs:186-598). The tables below go by effect, not by
    callback: each lists the occasions for one of them. */
module LockProgress {
  import opened Options
  import opened Authentication
  import opened LockState
  import opened LockProtocol
  import opened LockTheorems

  /** What has just reached the loop, in words. Only messages the loop accepts count. */
  datatype Stimulus =
    | Locks | Unlocks | Suspends | Resumes
    | Types(answer: Answer) | Draws | ShellRestarts | DelayIsOver
    | Asks(message: string, echo: bool)
    | Says(source: AuthSource, kind: string, text: string)
    | PasswordFails(reason: string)
    | ReaderFails | ReaderGone
    | Authenticates(with: AuthSource)
    | Nothing

  function StimulusOfMessage(m: AuthMessage): Stimulus {
    match m.event
    case Info(text) => Says(m.source, "info", text)
    case Error(text) => Says(m.source, "error", text)
    case Prompt(message, echo) => if m.source == Password then Asks(message, echo) else Nothing
    case Finished(outcome) =>
      if outcome.Success? then Authenticates(m.source)
      else if m.source == Password then PasswordFails(if outcome.Failed? then outcome.text else "")
      else if outcome.Unavailable? then ReaderGone else ReaderFails
  }

  function StimulusOf(w: World, input: Input): Stimulus
    requires InputEnabled(w, input)
  {
    match input
    case LockSession => Locks
    case Logind(Lock) => Locks
    case Logind(Unlock) => Unlocks
    case Logind(PrepareForSleep) => Suspends
    case Logind(Resumed) => Resumes
    case Typed(text) => Types(Answer(w.nextTicket, text))
    case Shown => Draws
    case ShellReady => ShellRestarts
    case TimerFired(_) => DelayIsOver
    case Deliver => if Accepted(w, input) then StimulusOfMessage(w.mail[0].message) else Nothing
  }

  // ----- the tables

  /** The session is locked afterwards. */
  predicate LockedBy(l: Loop, s: Stimulus) {
    match s
    case Locks | Suspends => true
    case Unlocks | Authenticates(_) => false
    case _ => l.locked
  }

  /** `prompted` says whether the transaction that fails had prompted. */
  predicate StartsPassword(l: Loop, s: Stimulus, prompted: bool) {
    match s
    case Locks => !l.locked
    case Resumes => l.locked && l.password.None?
    case Types(_) => l.locked && l.pendingPrompt.None? && l.password.None?
    case PasswordFails(_) => prompted
    case _ => false
  }

  predicate StartsReader(l: Loop, s: Stimulus, host: Host) {
    && host.installed
    && match s
       case Locks => !l.locked && l.fingerprintAvailable != Some(false)
       case Resumes => l.locked && l.fingerprintAvailable != Some(false) && !l.fingerprintRunning
                       && l.fingerprintFailures < 3
       case PasswordFails(_) => l.fingerprintAvailable != Some(false) && !l.fingerprintRunning
       case ReaderFails => l.fingerprintFailures + 1 < 3
       case _ => false
  }

  /** How often the reader has failed, from how often it had. */
  function Failures(failures: nat, locked: bool, s: Stimulus): nat {
    match s
    case Locks | Suspends => if locked then failures else 0
    case PasswordFails(_) => 0
    case ReaderFails => failures + 1
    case ReaderGone => FINGERPRINT_ATTEMPTS
    case _ => failures
  }

  predicate IsDrawn(l: Loop, s: Stimulus) {
    match s
    case Locks => l.locked && l.shown
    case Suspends => l.locked && l.shown
    case Draws => true
    case ShellRestarts => false
    case _ => l.shown
  }

  /** A suspend waits for the shell to draw. */
  predicate Waits(l: Loop, s: Stimulus, host: Host) {
    match s
    case Suspends => !(l.locked && l.shown) && host.scheduled
    case Locks | Types(_) | ShellRestarts | Asks(_, _) | Says(_, _, _) | PasswordFails(_) | ReaderFails | ReaderGone | Nothing =>
      l.sleepPending
    case _ => false
  }

  /** The delay of the release timer that is armed, in milliseconds. */
  function Arms(l: Loop, s: Stimulus, host: Host): Option<nat> {
    match s
    case Suspends => if !(l.locked && l.shown) && host.scheduled then Some(500) else None
    case Draws => if l.locked && l.sleepPending && host.scheduled then Some(150) else None
    case _ => None
  }

  predicate Releases(l: Loop, s: Stimulus, host: Host) {
    match s
    case Suspends => (l.locked && l.shown) || !host.scheduled
    case Draws => l.locked && l.sleepPending && !host.scheduled
    case DelayIsOver => true
    case _ => false
  }

  /** The reader's message the lock screen should show, from the one it showed. */
  function ReaderNote(note: Option<(string, string)>, locked: bool, failures: nat, s: Stimulus): Option<(string, string)> {
    match s
    case Locks | Suspends => if locked then note else None
    case Says(source, kind, text) => if source == Fingerprint then Some((kind, text)) else note
    case ReaderFails => if failures + 1 < FINGERPRINT_ATTEMPTS then note else None
    case ReaderGone | Unlocks | Authenticates(_) => None
    case _ => note
  }

  /** The answer that waits for the next prompt. */
  function Kept(queued: Option<Answer>, locked: bool, showing: bool, s: Stimulus): Option<Answer> {
    match s
    case Types(answer) => if locked && !showing then Some(answer) else queued
    case Locks | Suspends => if locked then queued else None
    case Asks(_, _) | PasswordFails(_) | Unlocks | Authenticates(_) => None
    case _ => queued
  }

  /** Whether there is a usable reader, once a transaction has found out. */
  function Reader(available: Option<bool>, s: Stimulus): Option<bool> {
    match s
    case ReaderFails => Some(true)
    case ReaderGone => Some(false)
    case Authenticates(source) => if source == Fingerprint then Some(true) else available
    case _ => available
  }

  const GONE := AuthUpdate(Fingerprint, "unavailable", "", false)

  function PromptNotice(prompt: Option<(string, bool)>): seq<Notice> {
    if prompt.None? then [] else [AuthUpdate(Password, "prompt", prompt.value.0, prompt.value.1)]
  }

  function ReaderNotice(message: Option<(string, string)>): seq<Notice> {
    if message.None? then [] else [AuthUpdate(Fingerprint, message.value.0, message.value.1, false)]
  }

  /** Everything the shell is told. */
  function Tells(l: Loop, s: Stimulus): seq<Notice> {
    match s
    case Locks => if l.locked then [] else [LockStateChanged(true)]
    case Suspends => if l.locked then [] else [LockStateChanged(true)]
    case Unlocks => if l.locked then [LockStateChanged(false)] else []
    case Authenticates(_) => [LockStateChanged(false)]
    case ShellRestarts =>
      if l.locked then [LockStateChanged(true)] + PromptNotice(l.pendingPrompt) + ReaderNotice(l.fingerprintMessage) else []
    case Asks(message, echo) => if l.queuedResponse.Some? then [] else PromptNotice(Some((message, echo)))
    case Says(source, kind, text) => [AuthUpdate(source, kind, text, false)]
    case PasswordFails(reason) => [AuthUpdate(Password, "failed", reason, false)]
    case ReaderFails => if l.fingerprintFailures + 1 < FINGERPRINT_ATTEMPTS then [] else [GONE]
    case ReaderGone => [GONE]
    case _ => []
  }

  // ----- every callback does what the tables say

  /** One callback against all of them. */
  ghost predicate Does(l0: Loop, l: Loop, s: Stimulus, host: Host) {
    && (l.locked <==> LockedBy(l0, s))
    && (l.turn.password.Some? <==> StartsPassword(l0, s, l0.passwordPrompted))
    && (l.turn.fingerprint.Some? <==> StartsReader(l0, s, host))
    && l.fingerprintFailures == Failures(l0.fingerprintFailures, l0.locked, s)
    && (l.locked ==> (l.shown <==> IsDrawn(l0, s)))
    && (l.sleepPending <==> Waits(l0, s, host))
    && (if l.turn.armed.Some? then Arms(l0, s, host) == Some(l.turn.armed.value.delay) else Arms(l0, s, host).None?)
    && l.turn.releases == (if Releases(l0, s, host) then 1 else 0)
    && l.fingerprintMessage == ReaderNote(l0.fingerprintMessage, l0.locked, l0.fingerprintFailures, s)
    && l.turn.told == Tells(l0, s)
    && l.queuedResponse == Kept(l0.queuedResponse, l0.locked, l0.pendingPrompt.Some?, s)
    && l.fingerprintAvailable == Reader(l0.fingerprintAvailable, s)
    && l.turn.dropped == (if l0.password.Some? && (l.password.None? || l.turn.password.Some?) then {l0.password.value} else {})
    && (l.turn.password.None? && l.password.Some? ==> (l.passwordPrompted <==> s.Asks? || l0.passwordPrompted))
    && (l.turn.password.Some? ==> !l.passwordPrompted)
  }

  lemma LockDoes(l: Loop, host: Host)
    requires LoopReady(l, NO_CUE)
    ensures Does(l, DoLock(l, true, host), Locks, host)
  {
  }

  lemma SuspendDoes(l: Loop, host: Host)
    requires LoopReady(l, NO_CUE)
    ensures Does(l, DoLogind(l, PrepareForSleep, host), Suspends, host)
  {
    if !(l.locked && l.shown) {
      var locked := DoLock(l.(sleepPending := true), false, host);
      assert locked.locked && locked.turn.password.None? && locked.turn.fingerprint.None? && locked.turn.releases == 0;
      assert locked.turn.told == Tells(l, Suspends) && locked.shown == IsDrawn(l, Suspends);
      assert locked.fingerprintFailures == (if l.locked then l.fingerprintFailures else 0);
      assert locked.fingerprintMessage == if l.locked then l.fingerprintMessage else None;
      assert locked.passwordPrompted == l.passwordPrompted && locked.turn.armed.None?;
      assert locked.queuedResponse == (if l.locked then l.queuedResponse else None) && locked.turn.dropped == {};
      assert locked.fingerprintAvailable == l.fingerprintAvailable && locked.password == l.password;
    }
  }

  lemma ResumeDoes(l: Loop, host: Host)
    requires LoopReady(l, NO_CUE)
    ensures Does(l, DoResume(l, host), Resumes, host)
  {
  }

  lemma UnlockDoes(l: Loop, host: Host)
    requires LoopReady(l, NO_CUE)
    ensures Does(l, DoUnlock(l), Unlocks, host)
  {
  }

  lemma TypedDoes(l: Loop, answer: Answer, host: Host)
    requires LoopReady(l, NO_CUE.(typed := Some(answer)))
    ensures Does(l, DoRespond(l, answer), Types(answer), host)
  {
  }

  lemma ShownDoes(l: Loop, host: Host)
    requires LoopReady(l, NO_CUE)
    ensures Does(l, DoShown(l, host), Draws, host)
  {
  }

  lemma TimerDoes(l: Loop, host: Host)
    requires LoopReady(l, NO_CUE.(fired := true))
    ensures Does(l, DoTimer(l), DelayIsOver, host)
  {
  }

  lemma ReplayDoes(l: Loop, host: Host)
    requires LoopReady(l, NO_CUE)
    ensures Does(l, DoReplay(l), ShellRestarts, host)
  {
    ReplayOnlyTells(l);
    if l.locked {
      assert DoReplay(l).turn.told == Tells(l, ShellRestarts);
    }
  }

  lemma NothingDoes(l: Loop, host: Host)
    requires LoopReady(l, NO_CUE)
    ensures Does(l, l, Nothing, host)
  {
  }

  lemma AskedAnswers(l: Loop, message: string, echo: bool, host: Host)
    requires LoopReady(l, NO_CUE.(hears := true)) && l.locked && l.queuedResponse.Some?
    ensures Does(l, DoPrompt(l, message, echo), Asks(message, echo), host)
  {
  }

  lemma AskedShows(l: Loop, message: string, echo: bool, host: Host)
    requires LoopReady(l, NO_CUE.(hears := true)) && l.locked && l.queuedResponse.None?
    ensures Does(l, DoPrompt(l, message, echo), Asks(message, echo), host)
  {
  }

  lemma AskedDoes(l: Loop, message: string, echo: bool, host: Host)
    requires LoopReady(l, NO_CUE.(hears := true)) && l.locked
    ensures Does(l, DoPrompt(l, message, echo), Asks(message, echo), host)
  {
    if l.queuedResponse.Some? {
      AskedAnswers(l, message, echo, host);
    } else {
      AskedShows(l, message, echo, host);
    }
  }

  lemma PasswordSaysDoes(l: Loop, kind: string, text: string, host: Host)
    requires LoopReady(l, NO_CUE) && l.locked
    ensures Does(l, Tell(l, AuthUpdate(Password, kind, text, false)), Says(Password, kind, text), host)
  {
  }

  lemma ReaderSaysDoes(l: Loop, kind: string, text: string, host: Host)
    requires LoopReady(l, NO_CUE) && l.locked
    ensures Does(l, DoReaderNote(l, kind, text), Says(Fingerprint, kind, text), host)
  {
  }

  lemma SaidDoes(l: Loop, m: AuthMessage, host: Host)
    requires LoopReady(l, NO_CUE) && l.locked && m.generation == l.generation && (m.event.Info? || m.event.Error?)
    ensures Does(l, DoAuth(l, m, host), StimulusOfMessage(m), host)
  {
    var kind := if m.event.Info? then "info" else "error";
    if m.source == Password {
      PasswordSaysDoes(l, kind, m.event.text, host);
    } else {
      ReaderSaysDoes(l, kind, m.event.text, host);
    }
  }

  lemma PasswordSuccessDoes(l: Loop, host: Host)
    requires LoopReady(l, NO_CUE.(endsPassword := true)) && l.locked
    ensures Does(l, PasswordFinished(l, Success, host), Authenticates(Password), host)
  {
  }

  lemma PasswordFailureDoes(l: Loop, outcome: AuthOutcome, host: Host)
    requires LoopReady(l, NO_CUE.(endsPassword := true)) && l.locked && !outcome.Success?
    ensures Does(l, PasswordFinished(l, outcome, host), PasswordFails(if outcome.Failed? then outcome.text else ""), host)
  {
  }

  lemma ReaderSuccessDoes(l: Loop, host: Host)
    requires LoopReady(l, NO_CUE.(endsFingerprint := true)) && l.locked
    ensures Does(l, FingerprintFinished(l, Success, host), Authenticates(Fingerprint), host)
  {
  }

  lemma ReaderGoneDoes(l: Loop, host: Host)
    requires LoopReady(l, NO_CUE.(endsFingerprint := true)) && l.locked
    ensures Does(l, FingerprintFinished(l, Unavailable, host), ReaderGone, host)
  {
  }

  lemma ReaderFailureDoes(l: Loop, outcome: AuthOutcome, host: Host)
    requires LoopReady(l, NO_CUE.(endsFingerprint := true)) && l.locked && (outcome.Rejected? || outcome.Failed?)
    ensures Does(l, FingerprintFinished(l, outcome, host), ReaderFails, host)
  {
  }

  lemma AuthDoes(l: Loop, m: AuthMessage, host: Host)
    requires LoopReady(l, CueOfMessage(l, m))
    ensures Does(l, DoAuth(l, m, host),
                 if l.locked && m.generation == l.generation then StimulusOfMessage(m) else Nothing, host)
  {
    if !l.locked || m.generation != l.generation {
      NothingDoes(l, host);
    } else {
      match m.event {
        case Finished(outcome) =>
          if m.source == Password {
            if outcome.Success? {
              PasswordSuccessDoes(l, host);
            } else {
              PasswordFailureDoes(l, outcome, host);
            }
          } else {
            match outcome {
              case Success => ReaderSuccessDoes(l, host);
              case Unavailable => ReaderGoneDoes(l, host);
              case _ => ReaderFailureDoes(l, outcome, host);
            }
          }
        case Prompt(message, echo) =>
          if m.source == Password {
            AskedDoes(l, message, echo, host);
          } else {
            NothingDoes(l, host);
          }
        case _ => SaidDoes(l, m, host);
      }
    }
  }

  lemma HandleDoes(w: World, input: Input, host: Host)
    requires Inv(w) && InputEnabled(w, input)
    ensures Does(w.loop.(turn := QUIET), Handle(w, input, host), StimulusOf(w, input), host)
  {
    ReadyForInput(w, input);
    var l := w.loop.(turn := QUIET);
    match input {
      case LockSession => LockDoes(l, host);
      case Logind(event) =>
        match event {
          case Lock => LockDoes(l, host);
          case Unlock => UnlockDoes(l, host);
          case PrepareForSleep => SuspendDoes(l, host);
          case Resumed => ResumeDoes(l, host);
        }
      case Typed(text) => TypedDoes(l, Answer(w.nextTicket, text), host);
      case Shown => ShownDoes(l, host);
      case ShellReady => ReplayDoes(l, host);
      case TimerFired(_) => TimerDoes(l, host);
      case Deliver =>
        assert CueOf(w, input) == CueOfMessage(l, w.mail[0].message);
        AuthDoes(l, w.mail[0].message, host);
    }
  }

  // ----- over runs

  /** The session is locked exactly when the last that locked it came after the last that unlocked it. */
  predicate LockedNow(run: Run)
    requires Valid(run)
  {
    run.Then? &&
    if !run.step.Callback? then LockedNow(run.before)
    else
      match StimulusOf(Final(run.before), run.step.input)
      case Locks | Suspends => true
      case Unlocks | Authenticates(_) => false
      case _ => LockedNow(run.before)
  }

  lemma {:induction false} LockedExactly(run: Run)
    requires Valid(run)
    ensures Final(run).loop.locked <==> LockedNow(run)
  {
    if run.Then? {
      LockedExactly(run.before);
      ReachableInv(run.before);
      if run.step.Callback? {
        HandleDoes(Final(run.before), run.step.input, run.step.luck.host);
      }
    }
  }

  /** The current password transaction has been heard prompting. */
  predicate HasPrompted(w: World) {
    w.loop.password.Some? && w.loop.password.value in w.workers && w.workers[w.loop.password.value].heard > 0
  }

  lemma FreshHasNotPrompted(w: World, input: Input, luck: Luck)
    requires Inv(w) && InputEnabled(w, input)
    requires Handle(w, input, luck.host).turn.password.Some?
    ensures var after := AfterCallback(w, input, luck); after.loop.password.Some? ==> !HasPrompted(after)
  {
    var l := Handle(w, input, luck.host);
    HandleMeets(w, input, luck.host);
    if l.password.Some? {
      assert l.password == l.turn.password;
      assert l.password.value !in w.workers;
    }
  }

  lemma KeptHasPrompted(w: World, input: Input, luck: Luck)
    requires Inv(w) && InputEnabled(w, input)
    requires var l := Handle(w, input, luck.host); l.turn.password.None? && l.password.Some?
    ensures w.loop.password == AfterCallback(w, input, luck).loop.password
    ensures HasPrompted(AfterCallback(w, input, luck)) <==> HasPrompted(w) || Hears(w, input)
  {
    HandleMeets(w, input, luck.host);
    var l := Handle(w, input, luck.host);
    var id := l.password.value;
    assert w.loop.password == Some(id);
    assert Current(w, id, Password) <==> w.loop.password == Some(id);
    HearsExactly(w, input, id);
    assert AfterCallback(w, input, luck).workers[id] == Touched(id, w.workers[id], l.turn, Delivered(w, input));
  }

  lemma AsksIsHears(w: World, input: Input)
    requires InputEnabled(w, input)
    ensures StimulusOf(w, input).Asks? <==> Hears(w, input)
  {
  }

  lemma PromptedStep(w: World, input: Input, luck: Luck)
    requires Inv(w) && InputEnabled(w, input)
    requires w.loop.password.Some? ==> (w.loop.passwordPrompted <==> HasPrompted(w))
    ensures var after := AfterCallback(w, input, luck);
      after.loop.password.Some? ==> (after.loop.passwordPrompted <==> HasPrompted(after))
  {
    var l := Handle(w, input, luck.host);
    HandleDoes(w, input, luck.host);
    AsksIsHears(w, input);
    if l.password.Some? {
      if l.turn.password.Some? {
        FreshHasNotPrompted(w, input, luck);
      } else {
        KeptHasPrompted(w, input, luck);
      }
    }
  }

  lemma {:induction false} PromptedIsHeard(run: Run)
    requires Valid(run) && Final(run).loop.password.Some?
    ensures Final(run).loop.passwordPrompted <==> HasPrompted(Final(run))
  {
    if run.Then? {
      ReachableInv(run.before);
      match run.step {
        case Callback(input, luck) =>
          if Final(run.before).loop.password.Some? {
            PromptedIsHeard(run.before);
          }
          PromptedStep(Final(run.before), input, luck);
        case Work(_, _) => PromptedIsHeard(run.before);
      }
    }
  }

  /** In every reachable world, a transaction of either kind is started on its occasions and on no
      other. A failed password is followed by another exactly when the loop had heard it prompt. */
  lemma {:induction false} TransactionsStartExactly(run: Run, input: Input, host: Host)
    requires Valid(run) && InputEnabled(Final(run), input)
    ensures var w, l, s := Final(run), Handle(Final(run), input, host), StimulusOf(Final(run), input);
      && (l.turn.password.Some? <==> StartsPassword(w.loop, s, HasPrompted(w)))
      && (l.turn.fingerprint.Some? <==> StartsReader(w.loop, s, host))
  {
    ReachableInv(run);
    var w, s := Final(run), StimulusOf(Final(run), input);
    HandleDoes(w, input, host);
    if s.PasswordFails? {
      FailureIsCurrent(w, input);
      PromptedIsHeard(run);
    }
  }

  lemma FailureIsCurrent(w: World, input: Input)
    requires Inv(w) && InputEnabled(w, input) && StimulusOf(w, input).PasswordFails?
    ensures w.loop.password == Some(w.mail[0].sender)
  {
    AcceptedIsCurrent(w, input);
    assert Current(w, w.mail[0].sender, Password) <==> w.loop.password == Some(w.mail[0].sender);
  }

  /** In every reachable world the shell is told exactly what there is to tell. */
  lemma {:induction false} ShellIsToldExactly(run: Run, input: Input, host: Host)
    requires Valid(run) && InputEnabled(Final(run), input)
    ensures Handle(Final(run), input, host).turn.told == Tells(Final(run).loop, StimulusOf(Final(run), input))
  {
    ReachableInv(run);
    HandleDoes(Final(run), input, host);
  }

  /** In every reachable world the responder of a password transaction is dropped exactly when the
      transaction is over or replaced, an answer is kept for the next prompt exactly until one comes,
      fails or the session unlocks, and what is known of the reader is what a transaction found out. */
  lemma {:induction false} TransactionsEndExactly(run: Run, input: Input, host: Host)
    requires Valid(run) && InputEnabled(Final(run), input)
    ensures var l0, l, s := Final(run).loop, Handle(Final(run), input, host), StimulusOf(Final(run), input);
      && l.turn.dropped == (if l0.password.Some? && (l.password.None? || l.turn.password.Some?) then {l0.password.value} else {})
      && l.queuedResponse == Kept(l0.queuedResponse, l0.locked, l0.pendingPrompt.Some?, s)
      && l.fingerprintAvailable == Reader(l0.fingerprintAvailable, s)
  {
    ReachableInv(run);
    HandleDoes(Final(run), input, host);
  }

  /** In every reachable world the inhibitor is released, or its timer armed, on these occasions and no
      other, and with these delays. */
  lemma {:induction false} InhibitorGoesExactly(run: Run, input: Input, host: Host)
    requires Valid(run) && InputEnabled(Final(run), input)
    ensures var l0, l, s := Final(run).loop, Handle(Final(run), input, host), StimulusOf(Final(run), input);
      && l.turn.releases == (if Releases(l0, s, host) then 1 else 0)
      && if l.turn.armed.Some? then Arms(l0, s, host) == Some(l.turn.armed.value.delay) else Arms(l0, s, host).None?
  {
    ReachableInv(run);
    HandleDoes(Final(run), input, host);
  }

  /** The shell has reported the lock screen drawn since the session was locked, and has not restarted since. */
  predicate DrawnSince(run: Run)
    requires Valid(run)
  {
    run.Then? &&
    if !run.step.Callback? then DrawnSince(run.before)
    else
      var s := StimulusOf(Final(run.before), run.step.input);
      Final(run.before).loop.locked && (s.Draws? || (!s.ShellRestarts? && DrawnSince(run.before)))
  }

  /** A suspend was announced before the lock screen was drawn, and nothing has let it go since: no
      drawing, no timer, no resume and no unlock. */
  predicate SuspendWaits(run: Run)
    requires Valid(run)
  {
    run.Then? &&
    if !run.step.Callback? then SuspendWaits(run.before)
    else
      match StimulusOf(Final(run.before), run.step.input)
      case Suspends => !(Final(run.before).loop.locked && DrawnSince(run.before)) && run.step.luck.host.scheduled
      case Draws | Resumes | DelayIsOver | Unlocks | Authenticates(_) => false
      case _ => SuspendWaits(run.before)
  }

  /** The failed fingerprint transactions since the last lock or failed password; a reader that is gone
      counts as all of them. */
  function FailedReads(run: Run): nat
    requires Valid(run)
  {
    if run.Boot? then 0
    else if !run.step.Callback? then FailedReads(run.before)
    else Failures(FailedReads(run.before), Final(run.before).loop.locked, StimulusOf(Final(run.before), run.step.input))
  }

  /** The last thing the reader's stack had to say in this lock, until the reader is given up. */
  function LastReaderNote(run: Run): Option<(string, string)>
    requires Valid(run)
  {
    if run.Boot? then None
    else if !run.step.Callback? then LastReaderNote(run.before)
    else ReaderNote(LastReaderNote(run.before), Final(run.before).loop.locked, FailedReads(run.before),
                    StimulusOf(Final(run.before), run.step.input))
  }

  lemma CallbackDraws(w: World, input: Input, host: Host)
    requires Inv(w) && InputEnabled(w, input)
    ensures var l, s := Handle(w, input, host), StimulusOf(w, input);
      l.locked ==> (l.shown <==> w.loop.locked && (s.Draws? || (!s.ShellRestarts? && w.loop.shown)))
  {
    HandleDoes(w, input, host);
  }

  lemma {:induction false} ShownIsDrawn(run: Run)
    requires Valid(run) && Final(run).loop.locked
    ensures Final(run).loop.shown <==> DrawnSince(run)
  {
    if run.Then? {
      if Final(run.before).loop.locked {
        ShownIsDrawn(run.before);
      }
      ReachableInv(run.before);
      if run.step.Callback? {
        CallbackDraws(Final(run.before), run.step.input, run.step.luck.host);
      }
    }
  }

  lemma {:induction false} PendingIsWaiting(run: Run)
    requires Valid(run)
    ensures Final(run).loop.sleepPending <==> SuspendWaits(run)
  {
    if run.Then? {
      PendingIsWaiting(run.before);
      if Final(run.before).loop.locked {
        ShownIsDrawn(run.before);
      }
      ReachableInv(run.before);
      if run.step.Callback? {
        HandleDoes(Final(run.before), run.step.input, run.step.luck.host);
      }
    }
  }

  lemma {:induction false} FailuresAreCounted(run: Run)
    requires Valid(run)
    ensures Final(run).loop.fingerprintFailures == FailedReads(run)
  {
    if run.Then? {
      FailuresAreCounted(run.before);
      ReachableInv(run.before);
      if run.step.Callback? {
        HandleDoes(Final(run.before), run.step.input, run.step.luck.host);
      }
    }
  }

  lemma CallbackNotes(w: World, input: Input, host: Host)
    requires Inv(w) && InputEnabled(w, input)
    ensures Handle(w, input, host).fingerprintMessage == ReaderNote(w.loop.fingerprintMessage, w.loop.locked, w.loop.fingerprintFailures, StimulusOf(w, input))
  {
    HandleDoes(w, input, host);
  }

  lemma {:induction false} NoteIsLast(run: Run)
    requires Valid(run)
    ensures Final(run).loop.fingerprintMessage == LastReaderNote(run)
  {
    if run.Then? {
      NoteIsLast(run.before);
      FailuresAreCounted(run.before);
      ReachableInv(run.before);
      if run.step.Callback? {
        CallbackNotes(Final(run.before), run.step.input, run.step.luck.host);
      }
    }
  }

  /** The loop's memory is exact: whether the lock screen is drawn, whether a suspend waits for it, how
      often the reader has failed and what it last said are what the history of the run says. */
  lemma {:induction false} MemoryIsExact(run: Run)
    requires Valid(run)
    ensures var l := Final(run).loop;
      && (l.locked ==> (l.shown <==> DrawnSince(run)))
      && (l.sleepPending <==> SuspendWaits(run))
      && l.fingerprintFailures == FailedReads(run)
      && l.fingerprintMessage == LastReaderNote(run)
  {
    if Final(run).loop.locked {
      ShownIsDrawn(run);
    }
    PendingIsWaiting(run);
    FailuresAreCounted(run);
    NoteIsLast(run);
  }
}
