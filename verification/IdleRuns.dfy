/** What holds after any sequence of events on the screensaver (src/embedder/idle/mod.rs). */
module IdleRuns {
  import opened Options
  import opened Brightness
  import opened IdleMachine

  /** `alive` is the set of surfaces still alive when the inhibition is recomputed. */
  datatype Event =
    | UserInput(luck: Luck)
    | DbusInhibit(inhibited: bool, alive: set<Surface>, luck: Luck)
    | DbusSleep(sleeping: bool, luck: Luck)
    | SurfaceAdded(surface: Surface, alive: set<Surface>, luck: Luck)
    | SurfaceRemoved(surface: Surface, alive: set<Surface>, luck: Luck)
    | SessionPaused
    | SessionActivated(luck: Luck)
    | SettingsChanged(settings: Settings, luck: Luck)
    | CaptureBegan(alive: set<Surface>, luck: Luck)
    | CaptureCancelled(alive: set<Surface>, luck: Luck)
    | CaptureFinished
    | RecordingBegan(alive: set<Surface>, luck: Luck)
    | RecordingStopped(alive: set<Surface>, luck: Luck)
    | RecordingLost
    | BrightnessKey(delta: real)
    | TimerFired(token: Token, now: int, later: int, luck: Luck)

  function Without(surfaces: seq<Surface>, surface: Surface): seq<Surface> {
    if surfaces == [] then []
    else
      var init, last := Without(surfaces[..|surfaces| - 1], surface), surfaces[|surfaces| - 1];
      if last == surface then init else init + [last]
  }

  /** Timers fire only while live, and the clock does not run backwards. */
  predicate Enabled(s: Idle, e: Event) {
    e.TimerFired? ==>
      && e.token in s.timers
      && e.now <= e.later
      && (s.fadeStarted.Some? ==> s.fadeStarted.value <= e.now)
  }

  /** The events after which the inhibition is recomputed. */
  predicate Recomputes(e: Event) {
    e.DbusInhibit? || e.SurfaceAdded? || e.SurfaceRemoved? || e.CaptureBegan? || e.CaptureCancelled?
    || e.RecordingBegan? || e.RecordingStopped?
  }

  /** There was no capture to cancel, or no recording to stop. */
  predicate Misses(s: Idle, e: Event) {
    (e.CaptureCancelled? && !s.capturing) || (e.RecordingStopped? && !s.recording)
  }

  /** The inputs of the inhibition once the event is known. */
  function Told(s: Idle, e: Event): Idle
    requires Recomputes(e)
  {
    match e
    case DbusInhibit(inhibited, _, _) => s.(dbusInhibited := inhibited)
    case SurfaceAdded(surface, _, _) => s.(surfaces := s.surfaces + [surface])
    case SurfaceRemoved(surface, _, _) => s.(surfaces := Without(s.surfaces, surface))
    case CaptureBegan(_, _) => s.(capturing := true)
    case CaptureCancelled(_, _) => s.(capturing := false)
    case RecordingBegan(_, _) => s.(recording := true)
    case RecordingStopped(_, _) => s.(recording := false)
  }

  function Recomputed(s: Idle, b: Backend, e: Event): Idle
    requires Recomputes(e)
  {
    if Misses(s, e) then s else Refresh(Told(s, e), e.alive, b, e.luck)
  }

  /** `CaptureFinished` and `RecordingLost` drop their session without recomputing the inhibition
      (src/embedder/capture/mod.rs:240-255, 1811-1823). */
  function Step(s: Idle, b: Backend, e: Event): Idle
    requires Enabled(s, e)
  {
    if Recomputes(e) then Recomputed(s, b, e)
    else if e.TimerFired? then Fire(s, e.token, e.now, e.later, b, e.luck)
    else Changed(s, b, e)
  }

  function Changed(s: Idle, b: Backend, e: Event): Idle
    requires !Recomputes(e) && !e.TimerFired?
  {
    match e
    case UserInput(luck) => Activity(s, b, luck)
    case DbusSleep(sleeping, luck) => PrepareForSleep(s, sleeping, b, luck)
    case SessionPaused => Paused(s)
    case SessionActivated(luck) => Activated(s, b, luck)
    case SettingsChanged(settings, luck) => ApplySettings(s, settings, b, luck)
    case CaptureFinished => s.(capturing := false)
    case RecordingLost => s.(recording := false)
    case BrightnessKey(delta) => s.(panel := Adjusted(s.panel, delta))
  }

  datatype Run = Boot(panel: Panel, settings: Settings, luck: Luck) | Then(before: Run, event: Event)

  predicate Valid(run: Run, b: Backend)
    decreases run, 0
  {
    run.Then? ==> Valid(run.before, b) && Enabled(Final(run.before, b), run.event)
  }

  /** The machine watches for idleness from its construction (src/embedder/state.rs:672-673). */
  function Final(run: Run, b: Backend): Idle
    requires Valid(run, b)
    decreases run, 1
  {
    match run
    case Boot(panel, settings, luck) => Arm(Startup(panel, settings), b, luck)
    case Then(before, event) => Step(Final(before, b), b, event)
  }

  function FirstPanel(run: Run): Panel {
    match run
    case Boot(panel, _, _) => panel
    case Then(before, _) => FirstPanel(before)
  }

  // ----- the invariant

  function Owner(s: Idle, kind: TimerKind): Option<Token> {
    match kind
    case DimTimer => s.dimToken
    case BlankTimer => s.blankToken
    case FadeTimer => s.fadeToken
    case PowerTimer => s.powerToken
  }

  predicate Live(s: Idle, token: Option<Token>, kind: TimerKind) {
    token.Some? ==> token.value in s.timers && s.timers[token.value].kind == kind
  }

  /** The live timers are exactly the stored tokens, each under the token of its own kind. */
  ghost predicate TimersOk(s: Idle) {
    && (forall t | t in s.timers :: t < s.nextToken && Owner(s, s.timers[t].kind) == Some(t))
    && Live(s, s.dimToken, DimTimer) && Live(s, s.blankToken, BlankTimer)
    && Live(s, s.fadeToken, FadeTimer) && Live(s, s.powerToken, PowerTimer)
  }

  predicate NoTokens(s: Idle) {
    s.dimToken.None? && s.blankToken.None? && s.fadeToken.None? && s.powerToken.None?
  }

  ghost predicate StagesOk(s: Idle, b: Backend) {
    && (!s.sessionActive || Inhibited(s) ==> s.stage == Active && NoTokens(s))
    && (s.fadeToken.Some? ==> s.fadeStarted.Some?)
    && (s.fadeStarted.Some? ==> s.stage == Fading)
    && (s.dimToken.Some? ==> s.stage == Active)
    && (s.blankToken.Some? ==> s.stage != Blank)
    && (s.stage == Blank ==> b.canBlank)
    && (s.stage == Blank || s.stage == Dimmed ==> s.dimAlpha == 1.0)
    && (s.stage == Active ==> s.dimAlpha == 0.0 && s.panel.progress == 0.0 && !s.panel.blank)
    && 0.0 <= s.dimAlpha <= 1.0
    && Faithful(s.panel)
  }

  /** At most one power action per arming: the armings of the actions sent grow strictly, and an
      armed power timer belongs to an arming that has not sent one. */
  ghost predicate SendsOk(s: Idle) {
    && (forall i, j | 0 <= i < j < |s.sends| :: s.sends[i] < s.sends[j])
    && (forall i | 0 <= i < |s.sends| :: s.sends[i] <= s.armings)
    && (s.powerToken.Some? ==> forall i | 0 <= i < |s.sends| :: s.sends[i] < s.armings)
  }

  predicate Timed(s: Idle, token: Option<Token>, timeout: nat) {
    token.Some? && token.value in s.timers ==> timeout != 0 && s.timers[token.value].delay == timeout
  }

  /** While the stage is `Active`, the timers that watch for idleness run for the timeouts of the
      current settings, and a timeout of zero has none. */
  predicate DelaysOk(s: Idle) {
    s.stage == Active ==>
      && Timed(s, s.dimToken, s.settings.dim)
      && Timed(s, s.blankToken, s.settings.blank)
      && Timed(s, s.powerToken, s.settings.power)
      && (s.powerToken.Some? && s.powerToken.value in s.timers ==> s.settings.action != Disabled)
  }

  ghost predicate Inv(s: Idle, b: Backend) {
    TimersOk(s) && StagesOk(s, b) && SendsOk(s) && DelaysOk(s)
  }

  /** Nothing is armed and the screen is lit: what every way back to `Active` establishes. */
  ghost predicate Lit(s: Idle) {
    && NoTokens(s) && s.timers == map[] && s.fadeStarted.None?
    && s.stage == Active && s.dimAlpha == 0.0 && s.panel.progress == 0.0 && !s.panel.blank
    && Faithful(s.panel)
  }

  lemma CancelLeavesNothing(s: Idle)
    requires TimersOk(s)
    ensures CancelAll(s).timers == map[] && TimersOk(CancelAll(s))
  {
    forall t | t in s.timers
      ensures t in Own(s.dimToken) + Own(s.blankToken) + Own(s.fadeToken) + Own(s.powerToken)
    {
      assert Owner(s, s.timers[t].kind) == Some(t);
    }
    assert CancelAll(s).timers.Keys == {};
  }

  lemma ResetIsLit(s: Idle)
    requires TimersOk(s) && Faithful(s.panel)
    ensures Lit(Reset(s)) && TimersOk(Reset(s))
  {
    CancelLeavesNothing(s);
    ChangesStayFaithful(s.panel, 0.0, 0.0, false);
  }

  lemma ArmDimKeepsTimers(s: Idle, luck: Luck) returns (after: Idle)
    requires TimersOk(s) && NoTokens(s)
    ensures after == ArmDim(s, luck) && TimersOk(after) && after.blankToken.None? && after.powerToken.None?
  {
    InsertKeepsTimers(s, DimTimer, s.settings.dim);
    after := ArmDim(s, luck);
  }

  lemma ArmBlankKeepsTimers(s: Idle, luck: Luck) returns (after: Idle)
    requires TimersOk(s) && s.blankToken.None? && s.powerToken.None?
    ensures after == ArmBlank(s, luck) && TimersOk(after) && after.powerToken.None?
  {
    InsertKeepsTimers(s, BlankTimer, s.settings.blank);
    after := ArmBlank(s, luck);
  }

  lemma ArmPowerKeepsTimers(s: Idle, b: Backend, luck: Luck)
    requires TimersOk(s) && s.powerToken.None?
    ensures TimersOk(ArmPower(s, b, luck))
  {
    InsertKeepsTimers(s, PowerTimer, s.settings.power);
  }

  lemma ArmTimersKeepsTimers(calm: Idle, b: Backend, luck: Luck)
    requires TimersOk(calm) && NoTokens(calm)
    ensures TimersOk(ArmTimers(calm, b, luck))
  {
    var dim := ArmDimKeepsTimers(calm, luck);
    var blank := ArmBlankKeepsTimers(dim, luck);
    ArmPowerKeepsTimers(blank, b, luck);
  }

  lemma ArmKeepsTimers(s: Idle, b: Backend, luck: Luck)
    requires TimersOk(s)
    ensures TimersOk(Arm(s, b, luck))
  {
    CancelLeavesNothing(s);
    var calm := Calmed(s);
    assert TimersOk(calm) && NoTokens(calm);
    ArmTimersKeepsTimers(calm, b, luck);
  }

  lemma InsertKeepsTimers(s: Idle, kind: TimerKind, delay: nat)
    requires TimersOk(s) && Owner(s, kind).None?
    ensures match kind
      case DimTimer => TimersOk(Insert(s, kind, delay).(dimToken := Some(s.nextToken)))
      case BlankTimer => TimersOk(Insert(s, kind, delay).(blankToken := Some(s.nextToken)))
      case FadeTimer => TimersOk(Insert(s, kind, delay).(fadeToken := Some(s.nextToken)))
      case PowerTimer => TimersOk(Insert(s, kind, delay).(powerToken := Some(s.nextToken)))
  {
  }

  /** What arming never touches. */
  ghost predicate ArmedFrom(s: Idle, a: Idle) {
    && a.stage == s.stage && a.dimAlpha == s.dimAlpha && a.panel == s.panel && a.settings == s.settings
    && a.fadeToken == s.fadeToken && a.fadeStarted == s.fadeStarted
    && a.sessionActive == s.sessionActive && a.surfaces == s.surfaces && a.dbusInhibited == s.dbusInhibited
    && a.capturing == s.capturing && a.recording == s.recording
    && a.sends == s.sends && a.armings == s.armings
  }

  /** The token, if any, is a live timer of that timeout, older than the next one. */
  predicate Runs(s: Idle, token: Option<Token>, timeout: nat) {
    token.Some? ==> token.value < s.nextToken && token.value in s.timers
                    && timeout != 0 && s.timers[token.value].delay == timeout
  }

  lemma ArmDimFrom(s: Idle, luck: Luck)
    requires NoTokens(s)
    ensures var a := ArmDim(s, luck);
      ArmedFrom(s, a) && Runs(a, a.dimToken, s.settings.dim) && a.blankToken.None? && a.powerToken.None?
  {
  }

  lemma ArmBlankFrom(s: Idle, luck: Luck)
    requires Runs(s, s.dimToken, s.settings.dim) && s.blankToken.None? && s.powerToken.None?
    ensures var a := ArmBlank(s, luck);
      && ArmedFrom(s, a) && Runs(a, a.dimToken, s.settings.dim) && Runs(a, a.blankToken, s.settings.blank)
      && a.powerToken.None?
  {
  }

  /** A further timer leaves those that run running. */
  lemma InsertedRuns(s: Idle, kind: TimerKind, delay: nat, token: Option<Token>, timeout: nat)
    requires Runs(s, token, timeout)
    ensures Runs(Insert(s, kind, delay), token, timeout)
    ensures delay != 0 ==> Runs(Insert(s, kind, delay), Some(s.nextToken), delay)
  {
  }

  lemma ArmPowerTouches(s: Idle, b: Backend, luck: Luck)
    ensures var a := ArmPower(s, b, luck);
      && ArmedFrom(s, a) && a.dimToken == s.dimToken && a.blankToken == s.blankToken
      && (a == s
          || (s.settings.power != 0 && s.settings.action != Disabled
              && a == Insert(s, PowerTimer, s.settings.power).(powerToken := Some(s.nextToken))))
  {
  }

  lemma ArmPowerFrom(s: Idle, b: Backend, luck: Luck)
    requires Runs(s, s.dimToken, s.settings.dim) && Runs(s, s.blankToken, s.settings.blank) && s.powerToken.None?
    ensures var a := ArmPower(s, b, luck);
      && ArmedFrom(s, a) && a.dimToken == s.dimToken && a.blankToken == s.blankToken
      && Runs(a, a.dimToken, s.settings.dim) && Runs(a, a.blankToken, s.settings.blank)
      && Runs(a, a.powerToken, s.settings.power) && (a.powerToken.Some? ==> s.settings.action != Disabled)
  {
    ArmPowerTouches(s, b, luck);
    InsertedRuns(s, PowerTimer, s.settings.power, s.dimToken, s.settings.dim);
    InsertedRuns(s, PowerTimer, s.settings.power, s.blankToken, s.settings.blank);
  }

  lemma ArmTimersFrom(s: Idle, b: Backend, luck: Luck)
    requires NoTokens(s)
    ensures ArmedFrom(s, ArmTimers(s, b, luck)) && DelaysOk(ArmTimers(s, b, luck))
  {
    var dim := ArmDim(s, luck);
    ArmDimFrom(s, luck);
    ArmBlankFrom(dim, luck);
    var blank := ArmBlank(dim, luck);
    ArmPowerFrom(blank, b, luck);
    var power := ArmPower(blank, b, luck);
    assert ArmTimers(s, b, luck) == power && power.settings == s.settings;
  }

  lemma CalmedState(s: Idle)
    requires TimersOk(s)
    ensures var calm := Calmed(s);
      && TimersOk(calm) && NoTokens(calm) && calm.fadeStarted.None? && DelaysOk(calm)
      && ArmedFrom(s.(fadeToken := None, fadeStarted := None, armings := s.armings + 1), calm)
  {
    CancelLeavesNothing(s);
  }

  /** Arming is safe whenever the stage is `Active` and nothing forbids idleness. */
  lemma ArmKeepsInv(s: Idle, b: Backend, luck: Luck)
    requires TimersOk(s) && SendsOk(s)
    requires s.stage == Active && s.dimAlpha == 0.0 && s.panel.progress == 0.0 && !s.panel.blank && Faithful(s.panel)
    requires !Inhibited(s)
    ensures Inv(Arm(s, b, luck), b)
  {
    CalmedState(s);
    ArmKeepsTimers(s, b, luck);
    ArmTimersFrom(Calmed(s), b, luck);
  }

  lemma ActivityKeepsInv(s: Idle, b: Backend, luck: Luck)
    requires TimersOk(s) && SendsOk(s) && Faithful(s.panel)
    requires StagesOk(s, b) || (s.sessionActive && StagesOk(s.(sessionActive := false), b))
    ensures Inv(Activity(s, b, luck), b)
  {
    if s.sessionActive {
      ResetIsLit(s);
      var awake := if s.stage != Active then Reset(s) else s;
      if !Inhibited(awake) {
        ArmKeepsInv(awake, b, luck);
      }
    }
  }

  /** Recomputing the inhibition is safe after any change of its inputs. */
  lemma RefreshKeepsInv(s: Idle, alive: set<Surface>, b: Backend, luck: Luck)
    requires TimersOk(s) && SendsOk(s)
    requires StagesOk(Uninhibited(s), b)
    ensures Inv(Refresh(s, alive, b, luck), b)
  {
    var kept := s.(surfaces := Retain(s.surfaces, alive));
    assert TimersOk(kept) && Uninhibited(kept) == Uninhibited(s);
    if !Inhibited(kept) {
      assert kept == Uninhibited(kept);
      if kept.stage == Active {
        ArmKeepsInv(kept, b, luck);
      }
    } else {
      InhibitedKeepsInv(kept, b);
    }
  }

  lemma InhibitedKeepsInv(s: Idle, b: Backend)
    requires TimersOk(s) && SendsOk(s) && Inhibited(s)
    requires StagesOk(Uninhibited(s), b)
    ensures Inv(if s.stage != Active then Reset(s) else CancelAll(s), b)
  {
    if s.stage != Active {
      ResetIsLit(s);
    } else {
      CancelLeavesNothing(s);
    }
  }

  lemma FadeShownKeepsInv(s: Idle, progress: real, b: Backend)
    requires Inv(s, b) && s.stage == Fading && 0.0 <= progress <= 1.0
    ensures Inv(s.(dimAlpha := progress, panel := Idled(s.panel, progress, false)), b)
  {
    ChangesStayFaithful(s.panel, 0.0, progress, false);
  }

  lemma FadeEndedKeepsInv(s: Idle, b: Backend)
    requires Inv(s, b) && s.stage == Fading && s.dimAlpha == 1.0
    ensures Inv(s.(fadeStarted := None, fadeToken := None, timers := s.timers - Own(s.fadeToken), stage := Dimmed), b)
  {
  }

  lemma FadeTickKeepsInv(s: Idle, now: int, b: Backend)
    requires Inv(s, b)
    requires s.fadeStarted.Some? ==> s.fadeStarted.value <= now
    ensures Inv(FadeTick(s, now), b)
  {
    if s.fadeStarted.Some? {
      var progress := Progress(s.settings.fade, s.fadeStarted.value, now);
      ProgressInRange(s.settings.fade, s.fadeStarted.value, now);
      FadeShownKeepsInv(s, progress, b);
      if progress >= 1.0 {
        FadeEndedKeepsInv(s.(dimAlpha := progress, panel := Idled(s.panel, progress, false)), b);
      }
    }
  }

  lemma ProgressInRange(fade: nat, started: int, now: int)
    requires started <= now
    ensures 0.0 <= Progress(fade, started, now) <= 1.0
  {
    if fade != 0 && now - started < fade {
      var x, y := (now - started) as real, fade as real;
      assert 0.0 <= x <= y && y > 0.0;
      assert (x / y) * y == x;
    }
  }

  /** What is left once the fired dim timer and its token are gone. */
  lemma DimTokenGone(s: Idle, token: Token, b: Backend) returns (quiet: Idle)
    requires Inv(s, b) && token in s.timers && s.timers[token].kind == DimTimer
    ensures quiet == s.(timers := s.timers - {token}, dimToken := None)
    ensures Inv(quiet, b) && quiet.fadeToken.None? && quiet.sessionActive && !Inhibited(quiet)
  {
    assert Owner(s, DimTimer) == Some(token);
    quiet := s.(timers := s.timers - {token}, dimToken := None);
  }

  lemma FadeStartedKeepsInv(quiet: Idle, now: int, luck: Luck, b: Backend)
    requires Inv(quiet, b) && quiet.stage == Active && quiet.dimToken.None? && quiet.fadeToken.None?
    requires quiet.sessionActive && !Inhibited(quiet)
    ensures Inv(FadeStarted(quiet, now, luck), b)
  {
    InsertKeepsTimers(quiet, FadeTimer, FirstTick(quiet.settings.fade));
  }

  lemma DimFiredKeepsInv(s: Idle, token: Token, now: int, later: int, b: Backend, luck: Luck)
    requires Inv(s, b) && token in s.timers && s.timers[token].kind == DimTimer && now <= later
    ensures Inv(DimFired(s.(timers := s.timers - {token}), now, later, luck), b)
  {
    var quiet := DimTokenGone(s, token, b);
    assert Owner(s, DimTimer) == Some(token);
    FadeStartedKeepsInv(quiet, now, luck, b);
    assert FadeStarted(s.(timers := s.timers - {token}), now, luck) == FadeStarted(quiet, now, luck);
    FadeTickKeepsInv(FadeStarted(quiet, now, luck), later, b);
  }

  lemma BlankFiredKeepsInv(s: Idle, token: Token, b: Backend)
    requires Inv(s, b) && token in s.timers && s.timers[token].kind == BlankTimer
    ensures Inv(BlankFired(s.(timers := s.timers - {token}), b), b)
  {
    assert Owner(s, BlankTimer) == Some(token);
    ChangesStayFaithful(s.panel, 0.0, 1.0, true);
    var after := BlankFired(s.(timers := s.timers - {token}), b);
    forall t | t in after.timers ensures Owner(after, after.timers[t].kind) == Some(t) {
      assert Owner(s, s.timers[t].kind) == Some(t);
    }
  }

  lemma PowerFiredKeepsInv(s: Idle, token: Token, b: Backend)
    requires Inv(s, b) && token in s.timers && s.timers[token].kind == PowerTimer
    ensures Inv(PowerFired(s.(timers := s.timers - {token}), b), b)
  {
    assert Owner(s, PowerTimer) == Some(token);
  }

  lemma FireKeepsInv(s: Idle, b: Backend, e: Event)
    requires Inv(s, b) && Enabled(s, e) && e.TimerFired?
    ensures Inv(Step(s, b, e), b)
  {
    match s.timers[e.token].kind {
      case DimTimer => DimFiredKeepsInv(s, e.token, e.now, e.later, b, e.luck);
      case BlankTimer => BlankFiredKeepsInv(s, e.token, b);
      case PowerTimer => PowerFiredKeepsInv(s, e.token, b);
      case FadeTimer => FadeTickKeepsInv(s, e.now, b);
    }
  }

  /** The state with every inhibitor put aside. */
  function Uninhibited(s: Idle): Idle {
    s.(dbusInhibited := false, surfaces := [], capturing := false, recording := false)
  }

  lemma ToldChangesInhibitorsOnly(s: Idle, e: Event)
    requires Recomputes(e)
    ensures Uninhibited(Told(s, e)) == Uninhibited(s)
  {
  }

  lemma InhibitorsDecideNothingElse(s: Idle, t: Idle, b: Backend)
    requires Inv(s, b) && Uninhibited(t) == Uninhibited(s)
    ensures TimersOk(t) && SendsOk(t) && StagesOk(Uninhibited(t), b)
  {
    var u := Uninhibited(s);
    assert t.timers == u.timers && t.nextToken == u.nextToken;
    assert t.dimToken == u.dimToken && t.blankToken == u.blankToken;
    assert t.fadeToken == u.fadeToken && t.powerToken == u.powerToken;
    assert t.sends == u.sends && t.armings == u.armings;
  }

  lemma RecomputedKeepsInv(s: Idle, b: Backend, e: Event)
    requires Inv(s, b) && Recomputes(e)
    ensures Inv(Recomputed(s, b, e), b)
  {
    ToldChangesInhibitorsOnly(s, e);
    InhibitorsDecideNothingElse(s, Told(s, e), b);
    RefreshKeepsInv(Told(s, e), e.alive, b, e.luck);
  }

  lemma SettingsKeepInv(s: Idle, settings: Settings, b: Backend, luck: Luck)
    requires Inv(s, b)
    ensures Inv(ApplySettings(s, settings, b, luck), b)
  {
    var told := s.(settings := settings);
    if told.stage == Active {
      CancelLeavesNothing(told);
      if !Inhibited(told) {
        ArmKeepsInv(told, b, luck);
      }
    }
  }

  lemma SleepKeepsInv(s: Idle, sleeping: bool, b: Backend, luck: Luck)
    requires Inv(s, b)
    ensures Inv(PrepareForSleep(s, sleeping, b, luck), b)
  {
    if sleeping {
      CancelLeavesNothing(s);
      ChangesStayFaithful(s.panel, 0.0, 0.0, false);
    } else {
      ActivityKeepsInv(s, b, luck);
    }
  }

  lemma AdjustingKeepsInv(s: Idle, delta: real, b: Backend)
    requires Inv(s, b)
    ensures Inv(s.(panel := Adjusted(s.panel, delta)), b)
  {
    ChangesStayFaithful(s.panel, delta, 0.0, false);
  }

  lemma PausedKeepsInv(s: Idle, b: Backend)
    requires Inv(s, b)
    ensures Inv(Paused(s), b)
  {
    ResetIsLit(s.(sessionActive := false));
  }

  lemma ChangedKeepsInv(s: Idle, b: Backend, e: Event)
    requires Inv(s, b) && !Recomputes(e) && !e.TimerFired?
    ensures Inv(Changed(s, b, e), b)
  {
    match e {
      case UserInput(luck) => ActivityKeepsInv(s, b, luck);
      case DbusSleep(sleeping, luck) => SleepKeepsInv(s, sleeping, b, luck);
      case SessionPaused => PausedKeepsInv(s, b);
      case SessionActivated(luck) => ActivityKeepsInv(s.(sessionActive := true), b, luck);
      case SettingsChanged(settings, luck) => SettingsKeepInv(s, settings, b, luck);
      case BrightnessKey(delta) => AdjustingKeepsInv(s, delta, b);
      case CaptureFinished =>
      case RecordingLost =>
    }
  }

  /** Every event, in every state that satisfies the invariant, keeps it. */
  lemma {:induction false} StepKeepsInv(s: Idle, b: Backend, e: Event)
    requires Inv(s, b) && Enabled(s, e)
    ensures Inv(Step(s, b, e), b)
  {
    if Recomputes(e) {
      RecomputedKeepsInv(s, b, e);
    } else if e.TimerFired? {
      FireKeepsInv(s, b, e);
    } else {
      ChangedKeepsInv(s, b, e);
    }
  }

  /** A panel as the compositor finds it: awake, at a level in range. */
  ghost predicate Fresh(p: Panel) {
    Faithful(p) && p.progress == 0.0 && !p.blank
  }

  lemma {:induction false} ReachableInv(run: Run, b: Backend)
    requires Valid(run, b) && Fresh(FirstPanel(run))
    ensures Inv(Final(run, b), b)
  {
    match run {
      case Boot(panel, settings, luck) => ArmKeepsInv(Startup(panel, settings), b, luck);
      case Then(before, event) =>
        ReachableInv(before, b);
        StepKeepsInv(Final(before, b), b, event);
    }
  }

  // ----- what it means

  lemma TimersAreOwned(s: Idle)
    requires TimersOk(s)
    ensures s.timers.Keys == Own(s.dimToken) + Own(s.blankToken) + Own(s.fadeToken) + Own(s.powerToken)
  {
    forall t | t in s.timers
      ensures t in Own(s.dimToken) + Own(s.blankToken) + Own(s.fadeToken) + Own(s.powerToken)
    {
      assert Owner(s, s.timers[t].kind) == Some(t);
    }
  }

  /** No timer of the machine outlives the token that would cancel it. */
  lemma {:induction false} NoOrphanTimers(run: Run, b: Backend)
    requires Valid(run, b) && Fresh(FirstPanel(run))
    ensures var s := Final(run, b);
      s.timers.Keys == Own(s.dimToken) + Own(s.blankToken) + Own(s.fadeToken) + Own(s.powerToken)
  {
    ReachableInv(run, b);
    TimersAreOwned(Final(run, b));
  }

  /** While the screen is active, each live timer that watches for idleness has the timeout the
      current settings give it; none runs for a timeout of zero, and no fade is running. */
  lemma {:induction false} TimersRunForTheSettings(run: Run, b: Backend, t: Token)
    requires Valid(run, b) && Fresh(FirstPanel(run))
    requires Final(run, b).stage == Active && t in Final(run, b).timers
    ensures var s := Final(run, b);
      s.timers[t].delay > 0 && s.timers[t].delay == match s.timers[t].kind
        case DimTimer => s.settings.dim
        case BlankTimer => s.settings.blank
        case PowerTimer => s.settings.power
        case FadeTimer => 0
  {
    ReachableInv(run, b);
    var s := Final(run, b);
    assert Owner(s, s.timers[t].kind) == Some(t);
  }

  /** Switched to another VT, or with any inhibitor active, the screen is awake and no timer that
      could dim, blank or power down is live. */
  lemma {:induction false} PausedOrInhibitedIsAwake(run: Run, b: Backend)
    requires Valid(run, b) && Fresh(FirstPanel(run))
    requires !Final(run, b).sessionActive || Inhibited(Final(run, b))
    ensures Final(run, b).stage == Active && Final(run, b).timers == map[]
  {
    ReachableInv(run, b);
    NoOrphanTimers(run, b);
    assert Final(run, b).timers.Keys == {};
  }

  /** The stages mean what their names say. */
  lemma {:induction false} StagesAreFaithful(run: Run, b: Backend)
    requires Valid(run, b) && Fresh(FirstPanel(run))
    ensures var s := Final(run, b);
      && (s.fadeToken.Some? ==> s.stage == Fading)
      && (s.stage == Blank ==> b.canBlank && s.dimAlpha == 1.0
                               && s.dimToken.None? && s.blankToken.None? && s.fadeToken.None?)
      && (s.stage == Dimmed ==> s.dimAlpha == 1.0)
      && (s.stage == Active ==> s.dimAlpha == 0.0)
  {
    ReachableInv(run, b);
  }

  /** While the stage is `Active` every panel that has been written shows the user's own level,
      rounded to a step and never off; and no panel is off unless the machine blanked it. */
  lemma {:induction false} ActiveShowsUserLevel(run: Run, b: Backend, i: nat)
    requires Valid(run, b) && Fresh(FirstPanel(run))
    requires Final(run, b).panel.written.Some? && i < |Final(run, b).panel.devices|
    ensures var p := Final(run, b).panel;
      && |p.written.value| == |p.devices|
      && (p.written.value[i] == 0 <==> p.blank)
      && (Final(run, b).stage == Active ==>
            p.written.value[i] == UserSteps(p, i))
  {
    ReachableInv(run, b);
    PanelLevels(Final(run, b).panel, i);
  }

  /** The power action is sent at most once for each arming of the timers. */
  lemma {:induction false} PowerOncePerArming(run: Run, b: Backend)
    requires Valid(run, b) && Fresh(FirstPanel(run))
    ensures var s := Final(run, b);
      && (forall i, j | 0 <= i < j < |s.sends| :: s.sends[i] < s.sends[j])
      && (forall i | 0 <= i < |s.sends| :: s.sends[i] <= s.armings)
  {
    ReachableInv(run, b);
  }

  lemma ArmSendsNothing(s: Idle, b: Backend, luck: Luck)
    ensures Arm(s, b, luck).sends == s.sends
  {
    var dim := ArmDim(Calmed(s), luck);
    assert dim.sends == s.sends;
    assert ArmBlank(dim, luck).sends == s.sends;
  }

  lemma RefreshSendsNothing(s: Idle, alive: set<Surface>, b: Backend, luck: Luck)
    ensures Refresh(s, alive, b, luck).sends == s.sends
  {
    ArmSendsNothing(s.(surfaces := Retain(s.surfaces, alive)), b, luck);
  }

  lemma ActivitySendsNothing(s: Idle, b: Backend, luck: Luck)
    ensures Activity(s, b, luck).sends == s.sends
  {
    ArmSendsNothing(if s.stage != Active then Reset(s) else s, b, luck);
  }

  lemma FadeSendsNothing(s: Idle, now: int)
    requires s.fadeStarted.Some? ==> s.fadeStarted.value <= now
    ensures FadeTick(s, now).sends == s.sends
  {
  }

  lemma DimSendsNothing(s: Idle, now: int, later: int, luck: Luck)
    requires now <= later
    ensures DimFired(s, now, later, luck).sends == s.sends
  {
    FadeSendsNothing(FadeStarted(s, now, luck), later);
  }

  lemma PowerSends(s: Idle, b: Backend)
    ensures PowerFired(s, b).sends == s.sends
      || (s.sessionActive && !Inhibited(s) && b.powerWorker && PowerFired(s, b).sends == s.sends + [s.armings])
  {
  }

  lemma BlankSendsNothing(s: Idle, b: Backend)
    ensures BlankFired(s, b).sends == s.sends
  {
  }

  lemma FireSends(s: Idle, b: Backend, e: Event)
    requires Enabled(s, e) && e.TimerFired?
    ensures Step(s, b, e).sends == s.sends
      || (s.timers[e.token].kind == PowerTimer && s.sessionActive && !Inhibited(s) && b.powerWorker
          && Step(s, b, e).sends == s.sends + [s.armings])
  {
    var dropped := s.(timers := s.timers - {e.token});
    match s.timers[e.token].kind {
      case DimTimer => DimSendsNothing(dropped, e.now, e.later, e.luck);
      case FadeTimer => FadeSendsNothing(s, e.now);
      case BlankTimer => BlankSendsNothing(dropped, b);
      case PowerTimer => PowerSends(dropped, b);
    }
  }

  lemma SendsOnlyFromPowerTimer(s: Idle, b: Backend, e: Event)
    requires Enabled(s, e) && !e.TimerFired?
    ensures Step(s, b, e).sends == s.sends
  {
    if Recomputes(e) {
      ToldChangesInhibitorsOnly(s, e);
      assert Told(s, e).sends == Uninhibited(Told(s, e)).sends == s.sends;
      RefreshSendsNothing(Told(s, e), e.alive, b, e.luck);
    } else {
      match e {
        case UserInput(luck) => ActivitySendsNothing(s, b, luck);
        case DbusSleep(_, luck) => ActivitySendsNothing(s, b, luck);
        case SessionActivated(luck) => ActivitySendsNothing(s.(sessionActive := true), b, luck);
        case SettingsChanged(settings, luck) => ArmSendsNothing(s.(settings := settings), b, luck);
        case _ =>
      }
    }
  }

  /** A power action is only ever sent by its own timer, in a session that is active, that nothing
      inhibits and that has a worker to perform it. */
  lemma {:induction false} PowerNeedsIdleness(run: Run, b: Backend)
    requires Valid(run, b) && run.Then?
    ensures var s := Final(run.before, b);
      Final(run, b).sends != s.sends ==>
        && run.event.TimerFired? && s.timers[run.event.token].kind == PowerTimer
        && s.sessionActive && !Inhibited(s) && b.powerWorker
        && Final(run, b).sends == s.sends + [s.armings]
  {
    if run.event.TimerFired? {
      FireSends(Final(run.before, b), b, run.event);
    } else {
      SendsOnlyFromPowerTimer(Final(run.before, b), b, run.event);
    }
  }
}
