module Options {
  datatype Option<+T> = None | Some(value: T)
}

/** What the loop and the PAM workers say to each other (src/embedder/lock/pam.rs:70-126). */
module Authentication {
  import opened Options

  type WorkerId = nat

  datatype AuthSource = Password | Fingerprint

  datatype AuthOutcome = Success | Rejected | Failed(text: string) | Unavailable

  datatype AuthEvent =
    | Prompt(message: string, echo: bool)
    | Info(text: string)
    | Error(text: string)
    | Finished(outcome: AuthOutcome)

  datatype AuthMessage = AuthMessage(generation: nat, source: AuthSource, event: AuthEvent)

  /** A typed answer. The ticket tells two answers of equal text apart; nothing decides on it. */
  datatype Answer = Answer(ticket: nat, text: string)
}

/** The compositor's side of the session lock (src/embedder/lock/mod.rs).

    `Loop` is the state of the Rust `LockState`, the functions on it are the callbacks'
    specification, and the class `LockState` assigns the fields step by step as the source does.
    A worker is named by the number its `spawn` was given; the responder of a worker and the
    worker share that number. */
module LockState {
  import opened Options
  import opened Authentication

  type Token = nat

  const FINGERPRINT_ATTEMPTS: nat := 3
  const SLEEP_RELEASE_DELAY: nat := 150
  const SLEEP_DRAW_GRACE: nat := 500

  datatype Handover = Handover(worker: WorkerId, answer: Answer)
  datatype Armed = Armed(token: Token, delay: nat)

  /** What the shell is told. */
  datatype Notice =
    | LockStateChanged(locked: bool)
    | AuthUpdate(source: AuthSource, kind: string, message: string, echo: bool)

  /** Everything one callback asks of the world outside the loop. */
  datatype Turn = Turn(
    password: Option<WorkerId>,
    fingerprint: Option<WorkerId>,
    dropped: set<WorkerId>,
    answered: Option<Handover>,
    armed: Option<Armed>,
    cancelled: set<Token>,
    releases: nat,
    hint: Option<bool>,
    told: seq<Notice>)

  const QUIET := Turn(None, None, {}, None, None, {}, 0, None, [])

  datatype Loop = Loop(
    locked: bool,
    generation: nat,
    password: Option<WorkerId>,
    passwordPrompted: bool,
    pendingPrompt: Option<(string, bool)>,
    queuedResponse: Option<Answer>,
    fingerprintRunning: bool,
    fingerprintFailures: nat,
    fingerprintMessage: Option<(string, string)>,
    fingerprintAvailable: Option<bool>,
    shown: bool,
    sleepPending: bool,
    sleepReleaseToken: Option<Token>,
    nextWorker: WorkerId,
    nextToken: Token,
    turn: Turn)

  const UNLOCKED := Loop(false, 0, None, false, None, None, false, 0, None, None, false, false, None, 0, 0, QUIET)

  /** What the environment decides during a callback: whether the fingerprint service file is
      installed and whether the event loop accepts a new timer. */
  datatype Host = Host(installed: bool, scheduled: bool)

  datatype LogindEvent = Lock | Unlock | PrepareForSleep | Resumed

  function Own<T>(o: Option<T>): set<T> {
    if o.Some? then {o.value} else {}
  }

  function FingerprintAllowed(available: Option<bool>, running: bool, failures: nat): bool {
    available != Some(false) && !running && failures < FINGERPRINT_ATTEMPTS
  }

  function Tell(l: Loop, notice: Notice): Loop {
    l.(turn := l.turn.(told := l.turn.told + [notice]))
  }

  function DropPassword(l: Loop): Loop {
    l.(password := None, turn := l.turn.(dropped := l.turn.dropped + Own(l.password)))
  }

  function StartPassword(l: Loop): Loop {
    l.(passwordPrompted := false,
       pendingPrompt := None,
       password := Some(l.nextWorker),
       nextWorker := l.nextWorker + 1,
       turn := l.turn.(password := Some(l.nextWorker), dropped := l.turn.dropped + Own(l.password)))
  }

  function StartFingerprint(l: Loop, host: Host): Loop {
    if !FingerprintAllowed(l.fingerprintAvailable, l.fingerprintRunning, l.fingerprintFailures) || !host.installed
    then l
    else l.(fingerprintRunning := true,
            nextWorker := l.nextWorker + 1,
            turn := l.turn.(fingerprint := Some(l.nextWorker)))
  }

  function CancelSleepRelease(l: Loop): Loop {
    l.(sleepReleaseToken := None, turn := l.turn.(cancelled := l.turn.cancelled + Own(l.sleepReleaseToken)))
  }

  function ReleaseInhibitor(l: Loop): Loop {
    l.(turn := l.turn.(releases := l.turn.releases + 1))
  }

  function ReleaseSleepAfter(l: Loop, delay: nat, host: Host): Loop {
    var c := CancelSleepRelease(l);
    if host.scheduled then
      c.(sleepReleaseToken := Some(c.nextToken),
         nextToken := c.nextToken + 1,
         turn := c.turn.(armed := Some(Armed(c.nextToken, delay))))
    else
      ReleaseInhibitor(c.(sleepPending := false))
  }

  /** The shell and logind are told the new state. */
  function Announced(l: Loop, locked: bool): Loop {
    l.(turn := l.turn.(told := l.turn.told + [LockStateChanged(locked)], hint := Some(locked)))
  }

  function DoLock(l: Loop, authenticate: bool, host: Host): Loop {
    if l.locked then l
    else
      var begun := l.(locked := true, generation := l.generation + 1, shown := false,
                      fingerprintFailures := 0, fingerprintMessage := None, queuedResponse := None);
      var started := if authenticate then StartFingerprint(StartPassword(begun), host)
                     else DropPassword(begun.(pendingPrompt := None));
      Announced(started, true)
  }

  function DoUnlock(l: Loop): Loop {
    if !l.locked then l
    else
      var closed := CancelSleepRelease(DropPassword(
        l.(locked := false, generation := l.generation + 1, pendingPrompt := None, queuedResponse := None,
           fingerprintRunning := false, fingerprintMessage := None, sleepPending := false)));
      Announced(closed, false)
  }

  function Answered(l: Loop, answer: Answer): Loop {
    if l.password.Some? then l.(turn := l.turn.(answered := Some(Handover(l.password.value, answer)))) else l
  }

  function DoRespond(l: Loop, answer: Answer): Loop {
    if !l.locked then l
    else if l.pendingPrompt.Some? then Answered(l.(pendingPrompt := None), answer)
    else
      var queued := l.(queuedResponse := Some(answer));
      if l.password.None? then StartPassword(queued) else queued
  }

  function DoShown(l: Loop, host: Host): Loop {
    if !l.locked then l
    else
      var drawn := l.(shown := true);
      if l.sleepPending then ReleaseSleepAfter(drawn.(sleepPending := false), SLEEP_RELEASE_DELAY, host) else drawn
  }

  function DoTimer(l: Loop): Loop {
    ReleaseInhibitor(l.(sleepReleaseToken := None, sleepPending := false))
  }

  function DoResume(l: Loop, host: Host): Loop {
    var calm := CancelSleepRelease(l.(sleepPending := false));
    if !calm.locked then calm
    else StartFingerprint(if calm.password.None? then StartPassword(calm) else calm, host)
  }

  function DoLogind(l: Loop, event: LogindEvent, host: Host): Loop {
    match event
    case Lock => DoLock(l, true, host)
    case Unlock => DoUnlock(l)
    case PrepareForSleep =>
      if l.locked && l.shown then ReleaseInhibitor(CancelSleepRelease(l.(sleepPending := false)))
      else ReleaseSleepAfter(DoLock(l.(sleepPending := true), false, host), SLEEP_DRAW_GRACE, host)
    case Resumed => DoResume(l, host)
  }

  function PasswordFinished(l: Loop, outcome: AuthOutcome, host: Host): Loop {
    var ended := DropPassword(l.(pendingPrompt := None, queuedResponse := None));
    if outcome.Success? then DoUnlock(ended)
    else
      var text := if outcome.Failed? then outcome.text else "";
      var told := Tell(ended, AuthUpdate(Password, "failed", text, false));
      var rearmed := StartFingerprint(told.(fingerprintFailures := 0), host);
      if rearmed.passwordPrompted then StartPassword(rearmed) else rearmed
  }

  function FingerprintFinished(l: Loop, outcome: AuthOutcome, host: Host): Loop {
    var ended := l.(fingerprintRunning := false, fingerprintAvailable := Some(!outcome.Unavailable?));
    var gone := AuthUpdate(Fingerprint, "unavailable", "", false);
    match outcome
    case Success => DoUnlock(ended)
    case Unavailable =>
      Tell(ended.(fingerprintFailures := FINGERPRINT_ATTEMPTS, fingerprintMessage := None), gone)
    case _ =>
      var counted := ended.(fingerprintFailures := ended.fingerprintFailures + 1);
      if counted.fingerprintFailures < FINGERPRINT_ATTEMPTS then StartFingerprint(counted, host)
      else Tell(counted.(fingerprintMessage := None), gone)
  }

  function DoPrompt(l: Loop, message: string, echo: bool): Loop {
    var asked := l.(passwordPrompted := true);
    if l.queuedResponse.Some? then Answered(asked.(queuedResponse := None), l.queuedResponse.value)
    else Tell(asked.(pendingPrompt := Some((message, echo))), AuthUpdate(Password, "prompt", message, echo))
  }

  function DoReaderNote(l: Loop, kind: string, text: string): Loop {
    Tell(l.(fingerprintMessage := Some((kind, text))), AuthUpdate(Fingerprint, kind, text, false))
  }

  function DoAuth(l: Loop, m: AuthMessage, host: Host): Loop {
    if !l.locked || m.generation != l.generation then l
    else match m.source
      case Password =>
        (match m.event
         case Prompt(message, echo) => DoPrompt(l, message, echo)
         case Info(text) => Tell(l, AuthUpdate(Password, "info", text, false))
         case Error(text) => Tell(l, AuthUpdate(Password, "error", text, false))
         case Finished(outcome) => PasswordFinished(l, outcome, host))
      case Fingerprint =>
        (match m.event
         case Prompt(_, _) => l
         case Info(text) => DoReaderNote(l, "info", text)
         case Error(text) => DoReaderNote(l, "error", text)
         case Finished(outcome) => FingerprintFinished(l, outcome, host))
  }

  function DoReplay(l: Loop): Loop {
    if !l.locked then l
    else l.(shown := false, turn := l.turn.(told := l.turn.told + Replayed(l)))
  }

  /** Everything a restarted shell has to know. */
  function Replayed(l: Loop): seq<Notice> {
    [LockStateChanged(true)]
    + (if l.pendingPrompt.None? then []
       else [AuthUpdate(Password, "prompt", l.pendingPrompt.value.0, l.pendingPrompt.value.1)])
    + (if l.fingerprintMessage.None? then []
       else [AuthUpdate(Fingerprint, l.fingerprintMessage.value.0, l.fingerprintMessage.value.1, false)])
  }

  class LockState {
    var locked: bool
    var generation: nat
    var password: Option<WorkerId>
    var passwordPrompted: bool
    var pendingPrompt: Option<(string, bool)>
    var queuedResponse: Option<Answer>
    var fingerprintRunning: bool
    var fingerprintFailures: nat
    var fingerprintMessage: Option<(string, string)>
    var fingerprintAvailable: Option<bool>
    var shown: bool
    var sleepPending: bool
    var sleepReleaseToken: Option<Token>
    var nextWorker: WorkerId
    var nextToken: Token
    var turn: Turn

    ghost function View(): Loop
      reads this
    {
      Loop(locked, generation, password, passwordPrompted, pendingPrompt, queuedResponse, fingerprintRunning,
           fingerprintFailures, fingerprintMessage, fingerprintAvailable, shown, sleepPending, sleepReleaseToken,
           nextWorker, nextToken, turn)
    }

    constructor ()
      ensures View() == UNLOCKED
    {
      locked, generation, password, passwordPrompted := false, 0, None, false;
      pendingPrompt, queuedResponse, fingerprintRunning, fingerprintFailures := None, None, false, 0;
      fingerprintMessage, fingerprintAvailable, shown, sleepPending := None, None, false, false;
      sleepReleaseToken, nextWorker, nextToken, turn := None, 0, 0, QUIET;
    }

    method SendToShell(notice: Notice)
      modifies this`turn
      ensures View() == Tell(old(View()), notice)
    {
      turn := turn.(told := turn.told + [notice]);
    }

    /** Assigning `password` drops the responder it held. */
    method AssignPassword(next: Option<WorkerId>)
      modifies this`turn, this`password
      ensures View() == DropPassword(old(View())).(password := next)
    {
      if password.Some? {
        turn := turn.(dropped := turn.dropped + {password.value});
      } else {
        assert turn.dropped + {} == turn.dropped;
      }
      password := next;
    }

    method Spawn() returns (worker: WorkerId)
      modifies this`nextWorker
      ensures worker == old(nextWorker) && nextWorker == worker + 1
    {
      worker := nextWorker;
      nextWorker := nextWorker + 1;
    }

    method BeginPassword()
      modifies this
      ensures View() == StartPassword(old(View()))
    {
      passwordPrompted := false;
      pendingPrompt := None;
      var worker := Spawn();
      turn := turn.(password := Some(worker));
      AssignPassword(Some(worker));
    }

    method BeginFingerprint(host: Host)
      modifies this
      ensures View() == StartFingerprint(old(View()), host)
    {
      if !FingerprintAllowed(fingerprintAvailable, fingerprintRunning, fingerprintFailures) || !host.installed {
        return;
      }
      fingerprintRunning := true;
      var worker := Spawn();
      turn := turn.(fingerprint := Some(worker));
    }

    method CancelRelease()
      modifies this
      ensures View() == CancelSleepRelease(old(View()))
    {
      if sleepReleaseToken.Some? {
        turn := turn.(cancelled := turn.cancelled + {sleepReleaseToken.value});
        sleepReleaseToken := None;
      } else {
        assert turn.cancelled + {} == turn.cancelled;
      }
    }

    method CommandRelease()
      modifies this`turn
      ensures View() == ReleaseInhibitor(old(View()))
    {
      turn := turn.(releases := turn.releases + 1);
    }

    method ReleaseAfter(delay: nat, host: Host)
      modifies this
      ensures View() == ReleaseSleepAfter(old(View()), delay, host)
    {
      CancelRelease();
      if host.scheduled {
        turn := turn.(armed := Some(Armed(nextToken, delay)));
        sleepReleaseToken := Some(nextToken);
        nextToken := nextToken + 1;
      } else {
        sleepPending := false;
        CommandRelease();
      }
    }

    /** The assignments a new lock starts with. */
    method MarkLocked()
      modifies this
      ensures View() == old(View()).(locked := true, generation := old(generation) + 1, shown := false,
                                     fingerprintFailures := 0, fingerprintMessage := None, queuedResponse := None)
    {
      locked := true;
      generation := generation + 1;
      shown := false;
      fingerprintFailures := 0;
      fingerprintMessage := None;
      queuedResponse := None;
    }

    method PublishHint(hint: bool)
      modifies this`turn
      ensures View() == old(View()).(turn := old(turn).(hint := Some(hint)))
    {
      turn := turn.(hint := Some(hint));
    }

    method Engage(authenticate: bool, host: Host)
      modifies this
      ensures View() == DoLock(old(View()), authenticate, host)
    {
      if locked {
        return;
      }
      MarkLocked();
      if authenticate {
        BeginPassword();
        BeginFingerprint(host);
      } else {
        AssignPassword(None);
        pendingPrompt := None;
      }
      Announce(true);
    }

    method Announce(state: bool)
      modifies this`turn
      ensures View() == Announced(old(View()), state)
    {
      SendToShell(LockStateChanged(state));
      PublishHint(state);
    }

    /** Forgets the transactions of the lock that ends. */
    method ForgetTransactions()
      modifies this
      ensures View() == DropPassword(old(View()).(pendingPrompt := None, queuedResponse := None,
                                                  fingerprintRunning := false, fingerprintMessage := None))
    {
      AssignPassword(None);
      pendingPrompt := None;
      queuedResponse := None;
      fingerprintRunning := false;
      fingerprintMessage := None;
    }

    method Release()
      modifies this
      ensures View() == DoUnlock(old(View()))
    {
      if !locked {
        return;
      }
      locked := false;
      generation := generation + 1;
      ForgetTransactions();
      ForgetSuspend();
      Announce(false);
    }

    method ForgetSuspend()
      modifies this
      ensures View() == CancelSleepRelease(old(View()).(sleepPending := false))
    {
      sleepPending := false;
      CancelRelease();
    }

    method Respond(answer: Answer)
      modifies this
      ensures View() == DoRespond(old(View()), answer)
    {
      if !locked {
        return;
      }
      if pendingPrompt.Some? {
        pendingPrompt := None;
        if password.Some? {
          turn := turn.(answered := Some(Handover(password.value, answer)));
        }
        return;
      }
      queuedResponse := Some(answer);
      if password.None? {
        BeginPassword();
      }
    }

    method OnShown(host: Host)
      modifies this
      ensures View() == DoShown(old(View()), host)
    {
      if !locked {
        return;
      }
      shown := true;
      if sleepPending {
        sleepPending := false;
        ReleaseAfter(SLEEP_RELEASE_DELAY, host);
      }
    }

    method OnReleaseTimer()
      modifies this
      ensures View() == DoTimer(old(View()))
    {
      sleepReleaseToken := None;
      sleepPending := false;
      CommandRelease();
    }

    method OnResume(host: Host)
      modifies this
      ensures View() == DoResume(old(View()), host)
    {
      sleepPending := false;
      CancelRelease();
      if !locked {
        return;
      }
      if password.None? {
        BeginPassword();
      }
      BeginFingerprint(host);
    }

    method OnDbusEvent(event: LogindEvent, host: Host)
      modifies this
      ensures View() == DoLogind(old(View()), event, host)
    {
      match event {
        case Lock => Engage(true, host);
        case Unlock => Release();
        case PrepareForSleep =>
          if locked && shown {
            sleepPending := false;
            CancelRelease();
            CommandRelease();
          } else {
            sleepPending := true;
            Engage(false, host);
            ReleaseAfter(SLEEP_DRAW_GRACE, host);
          }
        case Resumed => OnResume(host);
      }
    }

    method ClosePassword()
      modifies this
      ensures View() == DropPassword(old(View()).(pendingPrompt := None, queuedResponse := None))
    {
      AssignPassword(None);
      pendingPrompt := None;
      queuedResponse := None;
    }

    method RestartAfterFailure(host: Host)
      modifies this
      ensures var rearmed := StartFingerprint(old(View()).(fingerprintFailures := 0), host);
        View() == if rearmed.passwordPrompted then StartPassword(rearmed) else rearmed
    {
      fingerprintFailures := 0;
      BeginFingerprint(host);
      if passwordPrompted {
        BeginPassword();
      }
    }

    method OnPasswordFinished(outcome: AuthOutcome, host: Host)
      modifies this
      ensures View() == PasswordFinished(old(View()), outcome, host)
    {
      ClosePassword();
      if outcome.Success? {
        Release();
        return;
      }
      SendToShell(AuthUpdate(Password, "failed", if outcome.Failed? then outcome.text else "", false));
      RestartAfterFailure(host);
    }

    /** The reader is not tried again in this lock. */
    method GiveUpFingerprint()
      modifies this
      ensures View() == Tell(old(View()).(fingerprintMessage := None), AuthUpdate(Fingerprint, "unavailable", "", false))
    {
      fingerprintMessage := None;
      SendToShell(AuthUpdate(Fingerprint, "unavailable", "", false));
    }

    method CountFailure(host: Host)
      modifies this
      ensures var counted := old(View()).(fingerprintFailures := old(fingerprintFailures) + 1);
        View() == if counted.fingerprintFailures < FINGERPRINT_ATTEMPTS then StartFingerprint(counted, host)
                  else Tell(counted.(fingerprintMessage := None), AuthUpdate(Fingerprint, "unavailable", "", false))
    {
      fingerprintFailures := fingerprintFailures + 1;
      if fingerprintFailures < FINGERPRINT_ATTEMPTS {
        BeginFingerprint(host);
      } else {
        GiveUpFingerprint();
      }
    }

    method NoteReader(available: bool)
      modifies this
      ensures View() == old(View()).(fingerprintRunning := false, fingerprintAvailable := Some(available))
    {
      fingerprintRunning := false;
      fingerprintAvailable := Some(available);
    }

    method OnFingerprintFinished(outcome: AuthOutcome, host: Host)
      modifies this
      ensures View() == FingerprintFinished(old(View()), outcome, host)
    {
      NoteReader(!outcome.Unavailable?);
      match outcome {
        case Success => Release();
        case Unavailable =>
          fingerprintFailures := FINGERPRINT_ATTEMPTS;
          GiveUpFingerprint();
        case _ => CountFailure(host);
      }
    }

    method OnPrompt(message: string, echo: bool)
      modifies this`passwordPrompted, this`queuedResponse, this`pendingPrompt, this`turn
      ensures View() == DoPrompt(old(View()), message, echo)
    {
      passwordPrompted := true;
      if queuedResponse.Some? {
        var response := queuedResponse.value;
        queuedResponse := None;
        if password.Some? {
          turn := turn.(answered := Some(Handover(password.value, response)));
        }
        return;
      }
      pendingPrompt := Some((message, echo));
      SendToShell(AuthUpdate(Password, "prompt", message, echo));
    }

    method NoteReaderMessage(kind: string, text: string)
      modifies this`fingerprintMessage, this`turn
      ensures View() == DoReaderNote(old(View()), kind, text)
    {
      fingerprintMessage := Some((kind, text));
      SendToShell(AuthUpdate(Fingerprint, kind, text, false));
    }

    method OnAuthMessage(m: AuthMessage, host: Host)
      modifies this
      ensures View() == DoAuth(old(View()), m, host)
    {
      if !locked || m.generation != generation {
        return;
      }
      match m.source {
        case Password =>
          match m.event {
            case Prompt(message, echo) => OnPrompt(message, echo);
            case Info(text) => SendToShell(AuthUpdate(Password, "info", text, false));
            case Error(text) => SendToShell(AuthUpdate(Password, "error", text, false));
            case Finished(outcome) => OnPasswordFinished(outcome, host);
          }
        case Fingerprint =>
          match m.event {
            case Prompt(_, _) =>
            case Info(text) => NoteReaderMessage("info", text);
            case Error(text) => NoteReaderMessage("error", text);
            case Finished(outcome) => OnFingerprintFinished(outcome, host);
          }
      }
    }

    method ReplayToShell()
      modifies this
      ensures View() == DoReplay(old(View()))
    {
      if !locked {
        return;
      }
      shown := false;
      SendToShell(LockStateChanged(locked));
      if pendingPrompt.Some? {
        SendToShell(AuthUpdate(Password, "prompt", pendingPrompt.value.0, pendingPrompt.value.1));
      }
      if fingerprintMessage.Some? {
        SendToShell(AuthUpdate(Fingerprint, fingerprintMessage.value.0, fingerprintMessage.value.1, false));
      }
    }
  }
}
